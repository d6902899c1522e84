/**
 * The two fixed tables behind the insight cards: advice text and card
 * colour per known segment, each read with a default for labels the
 * tables do not know.
 */
module Insights {
  import opened Records

  const HighValueLoyal: Label := "High-Value Loyal Shoppers"
  const FrequentSpenders: Label := "Frequent Spenders"
  const RegularShoppers: Label := "Regular Shoppers"
  const OccasionalShoppers: Label := "Occasional Shoppers"
  const InactiveShoppers: Label := "Inactive Shoppers"

  /** The five segments that both tables describe. */
  const KnownSegments: set<Label> :=
    {HighValueLoyal, FrequentSpenders, RegularShoppers, OccasionalShoppers, InactiveShoppers}

  /** Text shown for a segment the insight table does not know. */
  const DefaultInsight: string := ""

  /** Background colour for a segment the colour table does not know. */
  const DefaultColor: string := "#f0f2f6"

  const InsightTable: map<Label, string> := map[
    HighValueLoyal := "Engage frequently and spend the most, prioritize VIP offers.",
    FrequentSpenders := "Moderate to high spending, can be upsold premium products.",
    RegularShoppers := "Consistent engagement, target for loyalty programs.",
    OccasionalShoppers := "Low engagement, need retargeting campaigns.",
    InactiveShoppers := "Lost customers, consider win-back campaigns."
  ]

  const ColorTable: map<Label, string> := map[
    HighValueLoyal := "#FFD700",     // gold
    FrequentSpenders := "#87CEEB",   // sky blue
    RegularShoppers := "#90EE90",    // light green
    OccasionalShoppers := "#FFA07A", // light salmon
    InactiveShoppers := "#D3D3D3"    // light gray
  ]

  /** Dictionary lookup with a default, as a dict's get(key, default). */
  function Get(table: map<Label, string>, key: Label, default: string): (r: string)
    ensures key in table ==> r == table[key]
    ensures key !in table ==> r == default
  {
    if key in table then table[key] else default
  }

  /** The advice text on a segment's card. */
  function InsightFor(segment: Label): (r: string)
    ensures segment == HighValueLoyal ==> r == "Engage frequently and spend the most, prioritize VIP offers."
    ensures segment == FrequentSpenders ==> r == "Moderate to high spending, can be upsold premium products."
    ensures segment == RegularShoppers ==> r == "Consistent engagement, target for loyalty programs."
    ensures segment == OccasionalShoppers ==> r == "Low engagement, need retargeting campaigns."
    ensures segment == InactiveShoppers ==> r == "Lost customers, consider win-back campaigns."
    ensures segment !in KnownSegments ==> r == DefaultInsight
  {
    Get(InsightTable, segment, DefaultInsight)
  }

  /** The background colour of a segment's card. */
  function ColorFor(segment: Label): (r: string)
    ensures segment == HighValueLoyal ==> r == "#FFD700"
    ensures segment == FrequentSpenders ==> r == "#87CEEB"
    ensures segment == RegularShoppers ==> r == "#90EE90"
    ensures segment == OccasionalShoppers ==> r == "#FFA07A"
    ensures segment == InactiveShoppers ==> r == "#D3D3D3"
    ensures segment !in KnownSegments ==> r == DefaultColor
  {
    Get(ColorTable, segment, DefaultColor)
  }

  /**
   * The two tables describe the same five segments, so a label gets its own
   * colour exactly when it gets its own advice, and a known segment never
   * falls back to either default.
   */
  lemma TablesAgree(segment: Label)
    ensures segment in InsightTable <==> segment in ColorTable
    ensures segment in KnownSegments <==> segment in InsightTable
    ensures segment in KnownSegments ==> InsightFor(segment) != DefaultInsight
    ensures segment in KnownSegments ==> ColorFor(segment) != DefaultColor
  {
    assert InsightTable.Keys == KnownSegments;
    assert ColorTable.Keys == KnownSegments;
  }
}
