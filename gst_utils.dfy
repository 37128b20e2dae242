/**
 * GST state codes, the intrastate/interstate decision and the CGST/SGST/IGST split
 * (utils/gstUtils.mjs).
 */
module GstUtils {
  import opened Wrappers
  import opened JsBuiltins

  /** The code returned for an empty or unknown state name. */
  const UnknownStateCode: string := "00"

  /**
   * `STATE_CODES`: each Indian state or union territory with its two-digit GST state
   * code (the first two digits of a GSTIN), in the order `Object.entries` lists them.
   */
  const StateCodes: seq<(string, string)> := [
    ("Andaman and Nicobar Islands", "35"),
    ("Andhra Pradesh", "37"),
    ("Arunachal Pradesh", "12"),
    ("Assam", "18"),
    ("Bihar", "10"),
    ("Chandigarh", "04"),
    ("Chhattisgarh", "22"),
    ("Dadra and Nagar Haveli and Daman and Diu", "26"),
    ("Delhi", "07"),
    ("Goa", "30"),
    ("Gujarat", "24"),
    ("Haryana", "06"),
    ("Himachal Pradesh", "02"),
    ("Jammu and Kashmir", "01"),
    ("Jharkhand", "20"),
    ("Karnataka", "29"),
    ("Kerala", "32"),
    ("Ladakh", "38"),
    ("Lakshadweep", "31"),
    ("Madhya Pradesh", "23"),
    ("Maharashtra", "27"),
    ("Manipur", "14"),
    ("Meghalaya", "17"),
    ("Mizoram", "15"),
    ("Nagaland", "13"),
    ("Odisha", "21"),
    ("Puducherry", "34"),
    ("Punjab", "03"),
    ("Rajasthan", "08"),
    ("Sikkim", "11"),
    ("Tamil Nadu", "33"),
    ("Telangana", "36"),
    ("Tripura", "16"),
    ("Uttar Pradesh", "09"),
    ("Uttarakhand", "05"),
    ("West Bengal", "19")
  ]

  /** The table key at index `i`, and its code. */
  function StateName(i: nat): string
    requires i < |StateCodes|
  {
    StateCodes[i].0
  }

  function CodeAt(i: nat): string
    requires i < |StateCodes|
  {
    StateCodes[i].1
  }

  /** No state name appears twice in the table. */
  lemma StateNamesDistinct()
    ensures forall i, j :: 0 <= i < j < |StateCodes| ==> StateCodes[i].0 != StateCodes[j].0
  {
    StateNameHeadsDistinct();
  }

  // The table facts below are checked a block of twelve entries (or two blocks) at a time.

  lemma CodesDistinct0And0()
    ensures forall i, j :: 0 <= i < j < 12 ==> StateCodes[i].1 != StateCodes[j].1
  {
  }

  lemma CodesDistinct0And12()
    ensures forall i, j :: 0 <= i < 12 && 12 <= j < 24 ==> StateCodes[i].1 != StateCodes[j].1
  {
  }

  lemma CodesDistinct0And24()
    ensures forall i, j :: 0 <= i < 12 && 24 <= j < 36 ==> StateCodes[i].1 != StateCodes[j].1
  {
  }

  lemma CodesDistinct12And12()
    ensures forall i, j :: 12 <= i < j < 24 ==> StateCodes[i].1 != StateCodes[j].1
  {
  }

  lemma CodesDistinct12And24()
    ensures forall i, j :: 12 <= i < 24 && 24 <= j < 36 ==> StateCodes[i].1 != StateCodes[j].1
  {
  }

  lemma CodesDistinct24And24()
    ensures forall i, j :: 24 <= i < j < 36 ==> StateCodes[i].1 != StateCodes[j].1
  {
  }

  /** No two states share a code. */
  lemma StateCodesDistinct()
    ensures forall i, j :: 0 <= i < j < |StateCodes| ==> StateCodes[i].1 != StateCodes[j].1
  {
    CodesDistinct0And0();
    CodesDistinct0And12();
    CodesDistinct0And24();
    CodesDistinct12And12();
    CodesDistinct12And24();
    CodesDistinct24And24();
  }

  lemma StateCodesAreTwoDigits()
    ensures forall i :: 0 <= i < |StateCodes| ==>
      |StateCodes[i].1| == 2 && '0' <= StateCodes[i].1[0] <= '9' && '0' <= StateCodes[i].1[1] <= '9'
    ensures forall i :: 0 <= i < |StateCodes| ==> StateCodes[i].1 != UnknownStateCode
  {
  }

  /** A capital, then a small letter, at least three characters, and a small letter at the end. */
  predicate NameShape(name: string)
  {
    |name| >= 3 && 'A' <= name[0] <= 'Z' && 'a' <= name[1] <= 'z' && 'a' <= name[|name| - 1] <= 'z'
  }

  lemma NameShapes0()
    ensures forall i :: 0 <= i < 12 ==> NameShape(StateCodes[i].0)
  {
  }

  lemma NameShapes12()
    ensures forall i :: 12 <= i < 24 ==> NameShape(StateCodes[i].0)
  {
  }

  lemma NameShapes24()
    ensures forall i :: 24 <= i < 36 ==> NameShape(StateCodes[i].0)
  {
  }

  /** The shape of every name: at least three characters, a capital, then a small letter, and a small letter at the end. */
  lemma StateNamesShape()
    ensures forall i :: 0 <= i < |StateCodes| ==> NameShape(StateCodes[i].0)
  {
    NameShapes0();
    NameShapes12();
    NameShapes24();
  }

  /** Two names differ in length or in one of their first two characters. */
  predicate HeadsDiffer(a: string, b: string)
  {
    |a| != |b| || (|a| >= 2 && |b| >= 2 && (a[0] != b[0] || a[1] != b[1]))
  }

  lemma HeadsDistinct0And0()
    ensures forall i, j :: 0 <= i < j < 12 ==> HeadsDiffer(StateCodes[i].0, StateCodes[j].0)
  {
  }

  lemma HeadsDistinct0And12()
    ensures forall i, j :: 0 <= i < 12 && 12 <= j < 24 ==> HeadsDiffer(StateCodes[i].0, StateCodes[j].0)
  {
  }

  lemma HeadsDistinct0And24()
    ensures forall i, j :: 0 <= i < 12 && 24 <= j < 36 ==> HeadsDiffer(StateCodes[i].0, StateCodes[j].0)
  {
  }

  lemma HeadsDistinct12And12()
    ensures forall i, j :: 12 <= i < j < 24 ==> HeadsDiffer(StateCodes[i].0, StateCodes[j].0)
  {
  }

  lemma HeadsDistinct12And24()
    ensures forall i, j :: 12 <= i < 24 && 24 <= j < 36 ==> HeadsDiffer(StateCodes[i].0, StateCodes[j].0)
  {
  }

  lemma HeadsDistinct24And24()
    ensures forall i, j :: 24 <= i < j < 36 ==> HeadsDiffer(StateCodes[i].0, StateCodes[j].0)
  {
  }

  /** No two names agree in length and in their first two characters. */
  lemma StateNameHeadsDistinct()
    ensures forall i, j :: 0 <= i < j < |StateCodes| ==> HeadsDiffer(StateCodes[i].0, StateCodes[j].0)
  {
    HeadsDistinct0And0();
    HeadsDistinct0And12();
    HeadsDistinct0And24();
    HeadsDistinct12And12();
    HeadsDistinct12And24();
    HeadsDistinct24And24();
  }

  /** Two names that start with a capital and a small letter, and differ in length or in those two letters, differ once lower-cased. */
  lemma LowerCaseSeparates(a: string, b: string)
    requires |a| >= 2 && 'A' <= a[0] <= 'Z' && 'a' <= a[1] <= 'z'
    requires |b| >= 2 && 'A' <= b[0] <= 'Z' && 'a' <= b[1] <= 'z'
    requires |a| != |b| || a[0] != b[0] || a[1] != b[1]
    ensures ToLowerCase(a) != ToLowerCase(b)
  {
    assert |ToLowerCase(a)| != |ToLowerCase(b)| || ToLowerCase(a)[0] != ToLowerCase(b)[0]
      || ToLowerCase(a)[1] != ToLowerCase(b)[1];
  }

  /** No two table names are equal once lower-cased, so the case-insensitive search has at most one hit. */
  lemma StateNamesDistinctIgnoringCase()
    ensures forall i, j :: 0 <= i < j < |StateCodes| ==>
      ToLowerCase(StateCodes[i].0) != ToLowerCase(StateCodes[j].0)
  {
    StateNamesShape();
    StateNameHeadsDistinct();
    forall i, j | 0 <= i < j < |StateCodes|
      ensures ToLowerCase(StateCodes[i].0) != ToLowerCase(StateCodes[j].0)
    {
      LowerCaseSeparates(StateCodes[i].0, StateCodes[j].0);
    }
  }

  /** The index of the entry named exactly `name`: what the property read `STATE_CODES[name]` finds. */
  function ExactEntry(name: string): Option<nat>
  {
    FindIndex(StateCodes, (e: (string, string)) => e.0 == name)
  }

  /** The first entry whose lower-cased name equals `normalizedName` lower-cased: the `for` loop's hit. */
  function CaseInsensitiveEntry(normalizedName: string): Option<nat>
  {
    FindIndex(StateCodes, (e: (string, string)) => ToLowerCase(e.0) == ToLowerCase(normalizedName))
  }

  /**
   * `getStateCode`: the code of a state name, by exact match first and then by a trimmed,
   * case-insensitive match; "00" for an empty name or one that matches nothing.
   * An absent name is the empty string here.
   */
  function GetStateCode(stateName: string): (code: string)
    ensures stateName == "" ==> code == UnknownStateCode
    ensures code == UnknownStateCode || exists i :: 0 <= i < |StateCodes| && code == StateCodes[i].1
  {
    if stateName == "" then UnknownStateCode
    else match ExactEntry(stateName)
      case Some(i) => StateCodes[i].1
      case None =>
        var normalizedName := Trim(stateName);
        match CaseInsensitiveEntry(normalizedName)
        case Some(i) => StateCodes[i].1
        case None => UnknownStateCode
  }

  /** A name of that shape is its own trim. */
  lemma ShapedNameUntrimmed(name: string)
    requires NameShape(name)
    ensures Trim(name) == name
  {
    TrimUnchanged(name);
  }

  /** A table name is its own trim. */
  lemma StateNameUntrimmed(i: nat)
    requires i < |StateCodes|
    ensures Trim(StateCodes[i].0) == StateCodes[i].0
  {
    StateNamesShape();
    ShapedNameUntrimmed(StateCodes[i].0);
  }

  /** Every table name resolves to its own code. */
  lemma GetStateCodeOfTableName(i: nat)
    requires i < |StateCodes|
    ensures GetStateCode(StateCodes[i].0) == StateCodes[i].1
  {
    StateNamesDistinct();
    StateNamesShape();
  }

  /**
   * A non-empty name resolves to the code of entry `i` exactly when, trimmed and
   * lower-cased, it equals that entry's lower-cased name.
   */
  lemma {:induction false} GetStateCodeMatches(stateName: string, i: nat)
    requires stateName != "" && i < |StateCodes|
    ensures GetStateCode(stateName) == StateCodes[i].1
        <==> ToLowerCase(Trim(stateName)) == ToLowerCase(StateCodes[i].0)
  {
    match ExactEntry(stateName)
    case Some(j) => MatchesByExactEntry(stateName, i, j);
    case None =>
      match CaseInsensitiveEntry(Trim(stateName))
      case Some(j) => MatchesByCaseInsensitiveEntry(stateName, i, j);
      case None => MatchesByNoEntry(stateName, i);
  }

  lemma MatchesByNoEntry(stateName: string, i: nat)
    requires stateName != "" && i < |StateCodes|
    requires ExactEntry(stateName).None? && CaseInsensitiveEntry(Trim(stateName)).None?
    ensures GetStateCode(stateName) == StateCodes[i].1
        <==> ToLowerCase(Trim(stateName)) == ToLowerCase(StateCodes[i].0)
  {
    CodeIsKnown(i);
  }

  lemma MatchesByExactEntry(stateName: string, i: nat, j: nat)
    requires stateName != "" && i < |StateCodes| && ExactEntry(stateName) == Some(j)
    ensures GetStateCode(stateName) == StateCodes[i].1
        <==> ToLowerCase(Trim(stateName)) == ToLowerCase(StateCodes[i].0)
  {
    StateNameUntrimmed(j);
    if i != j { EntriesSeparate(i, j); }
  }

  lemma MatchesByCaseInsensitiveEntry(stateName: string, i: nat, j: nat)
    requires stateName != "" && i < |StateCodes|
    requires ExactEntry(stateName).None? && CaseInsensitiveEntry(Trim(stateName)) == Some(j)
    ensures GetStateCode(stateName) == StateCodes[i].1
        <==> ToLowerCase(Trim(stateName)) == ToLowerCase(StateCodes[i].0)
  {
    if i != j { EntriesSeparate(i, j); }
  }

  /** Two different entries differ in code and in lower-cased name. */
  lemma EntriesSeparate(i: nat, j: nat)
    requires i < |StateCodes| && j < |StateCodes| && i != j
    ensures StateCodes[i].1 != StateCodes[j].1
    ensures ToLowerCase(StateCodes[i].0) != ToLowerCase(StateCodes[j].0)
  {
    StateCodesDistinct();
    StateNamesDistinctIgnoringCase();
  }

  lemma CodeIsKnown(i: nat)
    requires i < |StateCodes|
    ensures StateCodes[i].1 != UnknownStateCode
  {
    StateCodesAreTwoDigits();
  }

  /** A name resolves to "00" exactly when it is empty or matches no table name, trimmed and ignoring case. */
  lemma GetStateCodeUnknown(stateName: string)
    ensures GetStateCode(stateName) == UnknownStateCode
        <==> stateName == "" || forall i :: 0 <= i < |StateCodes| ==>
               ToLowerCase(Trim(stateName)) != ToLowerCase(StateCodes[i].0)
  {
    StateCodesAreTwoDigits();
    if stateName != "" {
      forall i | 0 <= i < |StateCodes|
        ensures GetStateCode(stateName) == StateCodes[i].1
            <==> ToLowerCase(Trim(stateName)) == ToLowerCase(StateCodes[i].0)
      {
        GetStateCodeMatches(stateName, i);
      }
    }
  }

  /**
   * `isIntrastate`: seller and buyer are in the same state when both names are present,
   * they resolve to the same code, and that code is not "00".
   */
  function IsIntrastate(sellerState: string, buyerState: string): (intrastate: bool)
    ensures intrastate ==> sellerState != "" && buyerState != ""
    ensures intrastate ==> GetStateCode(sellerState) != UnknownStateCode
  {
    if sellerState == "" || buyerState == "" then false
    else
      var sellerCode := GetStateCode(sellerState);
      var buyerCode := GetStateCode(buyerState);
      sellerCode == buyerCode && sellerCode != UnknownStateCode
  }

  /** The supply is intrastate exactly when both names denote the same table entry, trimmed and ignoring case. */
  lemma {:induction false} IsIntrastateSameEntry(sellerState: string, buyerState: string)
    ensures IsIntrastate(sellerState, buyerState)
        <==> exists i :: 0 <= i < |StateCodes|
               && ToLowerCase(Trim(sellerState)) == ToLowerCase(StateCodes[i].0)
               && ToLowerCase(Trim(buyerState)) == ToLowerCase(StateCodes[i].0)
  {
    if IsIntrastate(sellerState, buyerState) {
      var i :| 0 <= i < |StateCodes| && GetStateCode(sellerState) == StateCodes[i].1;
      GetStateCodeMatches(sellerState, i);
      GetStateCodeMatches(buyerState, i);
    }
    if exists i :: 0 <= i < |StateCodes|
               && ToLowerCase(Trim(sellerState)) == ToLowerCase(StateCodes[i].0)
               && ToLowerCase(Trim(buyerState)) == ToLowerCase(StateCodes[i].0)
    {
      var i :| 0 <= i < |StateCodes|
               && ToLowerCase(Trim(sellerState)) == ToLowerCase(StateCodes[i].0)
               && ToLowerCase(Trim(buyerState)) == ToLowerCase(StateCodes[i].0);
      StateNamesShape();
      assert sellerState != "" && buyerState != "";
      GetStateCodeMatches(sellerState, i);
      GetStateCodeMatches(buyerState, i);
      CodeIsKnown(i);
    }
  }

  /** The decision does not depend on which party is the seller. */
  lemma IsIntrastateSymmetric(sellerState: string, buyerState: string)
    ensures IsIntrastate(sellerState, buyerState) == IsIntrastate(buyerState, sellerState)
  {
  }

  /** Any name that resolves to a real code is intrastate with itself; in particular every table name is. */
  lemma {:induction false} IsIntrastateWithItself(state: string)
    requires GetStateCode(state) != UnknownStateCode
    ensures IsIntrastate(state, state)
  {
  }

  lemma {:induction false} TableStateIsIntrastateWithItself(i: nat)
    requires i < |StateCodes|
    ensures IsIntrastate(StateCodes[i].0, StateCodes[i].0)
  {
    GetStateCodeOfTableName(i);
    CodeIsKnown(i);
  }

  /** Two states named as in the table are intrastate exactly when they are the same entry. */
  lemma TableStatesIntrastate(i: nat, j: nat)
    requires i < |StateCodes| && j < |StateCodes|
    ensures IsIntrastate(StateCodes[i].0, StateCodes[j].0) <==> i == j
  {
    GetStateCodeOfTableName(i);
    GetStateCodeOfTableName(j);
    CodeIsKnown(i);
    if i != j {
      EntriesSeparate(i, j);
    }
  }

  /** A name that resolves to "00" (empty or unknown) makes the supply interstate, on either side. */
  lemma UnknownStateIsInterstate(state: string, other: string)
    requires GetStateCode(state) == UnknownStateCode
    ensures !IsIntrastate(state, other) && !IsIntrastate(other, state)
  {
  }

  /** Which GST components a supply carries. */
  datatype SupplyType = Intrastate | Interstate

  /** The result of `calculateGSTBreakdown`. */
  datatype GstBreakdown = GstBreakdown(cgst: real, sgst: real, igst: real, supplyType: SupplyType)

  /**
   * `calculateGSTBreakdown`: an intrastate tax is split into equal CGST and SGST halves,
   * an interstate tax is charged in full as IGST; no rounding.
   */
  function CalculateGstBreakdown(taxAmount: real, isIntrastateTxn: bool): (g: GstBreakdown)
    ensures g.cgst + g.sgst + g.igst == taxAmount
    ensures isIntrastateTxn ==> g.cgst == g.sgst && g.igst == 0.0 && g.supplyType == Intrastate
    ensures !isIntrastateTxn ==> g.cgst == 0.0 && g.sgst == 0.0 && g.supplyType == Interstate
  {
    if isIntrastateTxn then
      var cgst := taxAmount / 2.0;
      var sgst := taxAmount / 2.0;
      GstBreakdown(cgst, sgst, 0.0, Intrastate)
    else
      GstBreakdown(0.0, 0.0, taxAmount, Interstate)
  }
}
