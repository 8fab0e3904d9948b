/** The fund helpers of `budget.js`: the fixed table of savings funds,
    `getFundLabel`, `getFundEmoji` and `getAllFundTypes`. */
module Funds {
  import opened Wrappers
  import opened Lookup

  /** What the table stores for one fund (`label` is a Dafny keyword, hence `fundLabel`). */
  datatype FundInfo = FundInfo(fundLabel: string, emoji: string)

  /** One record of `getAllFundTypes`: `{ value, label, emoji }`. */
  datatype FundOption = FundOption(value: string, fundLabel: string, emoji: string)

  const GENERAL_LABEL: string := "General Savings"
  const MONEY_BAG: string := "\U{1F4B0}"

  /** `FUND_TYPES`, in declaration order. */
  const FUND_TYPES: seq<(string, FundInfo)> := [
    ("retirement", FundInfo("Retirement Fund", "\U{1F3D6}\U{FE0F}")),
    ("travel", FundInfo("Travel Fund", "\U{2708}\U{FE0F}")),
    ("emergency", FundInfo("Emergency Fund", "\U{1F6E1}\U{FE0F}")),
    ("waffles", FundInfo("Waffles' Treat Fund", "\U{1F436}")),
    ("general", FundInfo(GENERAL_LABEL, MONEY_BAG))
  ]

  /** The fund names are declared once each, and no label or emoji is empty. */
  lemma FundTableWellFormed()
    ensures UniqueKeys(FUND_TYPES)
    ensures forall i :: 0 <= i < |FUND_TYPES| ==> FUND_TYPES[i].1.fundLabel != "" && FUND_TYPES[i].1.emoji != ""
  {
  }

  /** True when `fundType` is one of the declared funds. */
  predicate IsKnownFund(fundType: string) {
    exists i :: 0 <= i < |FUND_TYPES| && FUND_TYPES[i].0 == fundType
  }

  /** `getFundLabel`: the declared label, or "General Savings" for any
      other input. */
  function FundLabel(fundType: string): (fundLabel: string)
    ensures forall i :: 0 <= i < |FUND_TYPES| && FUND_TYPES[i].0 == fundType ==> fundLabel == FUND_TYPES[i].1.fundLabel
    ensures !IsKnownFund(fundType) ==> fundLabel == GENERAL_LABEL
  {
    FundTableWellFormed();
    match Find(FUND_TYPES, fundType)
    case Some(info) => if info.fundLabel != "" then info.fundLabel else GENERAL_LABEL
    case None => GENERAL_LABEL
  }

  /** `getFundEmoji`: the declared emoji, or the money bag for any other
      input. */
  function FundEmoji(fundType: string): (emoji: string)
    ensures forall i :: 0 <= i < |FUND_TYPES| && FUND_TYPES[i].0 == fundType ==> emoji == FUND_TYPES[i].1.emoji
    ensures !IsKnownFund(fundType) ==> emoji == MONEY_BAG
  {
    FundTableWellFormed();
    match Find(FUND_TYPES, fundType)
    case Some(info) => if info.emoji != "" then info.emoji else MONEY_BAG
    case None => MONEY_BAG
  }

  /** `getAllFundTypes`: the five funds in declaration order, each record
      agreeing with what the label and emoji lookups return for it. */
  function AllFundTypes(): (funds: seq<FundOption>)
    ensures |funds| == 5
    ensures funds[0].value == "retirement" && funds[1].value == "travel" && funds[2].value == "emergency"
         && funds[3].value == "waffles" && funds[4].value == "general"
    ensures forall i :: 0 <= i < |funds| ==> FundLabel(funds[i].value) == funds[i].fundLabel
    ensures forall i :: 0 <= i < |funds| ==> FundEmoji(funds[i].value) == funds[i].emoji
  {
    seq(|FUND_TYPES|, i requires 0 <= i < |FUND_TYPES| =>
      FundOption(FUND_TYPES[i].0, FUND_TYPES[i].1.fundLabel, FUND_TYPES[i].1.emoji))
  }
}
