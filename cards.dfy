/**
 * The Insights tab: one card per selected segment, laid out two per row.
 * Each card shows the segment's label, its customer count and averages
 * over the filtered table, its advice text and its background colour.
 */
module Cards {
  import opened Records
  import opened Segments
  import opened Aggregates
  import opened Insights

  /** Cards per row (the number of columns each row is split into). */
  const Columns: nat := 2

  datatype Card = Card(
    index: nat,  // position of the segment in the selection
    row: nat,
    column: nat,
    segment: Label,
    summary: Summary,
    color: string,
    insight: string
  )

  /** What the card for the k-th selected segment holds and where it goes. */
  function CardAt(selected: seq<Label>, filtered: seq<Customer>, k: nat): (c: Card)
    requires k < |selected|
    ensures c.index == k && c.segment == selected[k]
    ensures c.row == k / Columns && c.column == k % Columns
    ensures c.summary == Summarize(SegmentRows(filtered, selected[k]))
    ensures c.color == ColorFor(selected[k]) && c.insight == InsightFor(selected[k])
  {
    var s := selected[k];
    Card(k, k / Columns, k % Columns, s, Summarize(SegmentRows(filtered, s)), ColorFor(s), InsightFor(s))
  }

  /**
   * Lays out the cards: an outer loop over the selection in steps of two
   * opens a row of two columns, and an inner loop fills each column whose
   * position is still inside the selection. Returns the cards in the order
   * they are placed and the number of rows opened.
   */
  method LayoutCards(selected: seq<Label>, filtered: seq<Customer>) returns (cards: seq<Card>, rows: nat)
    ensures |cards| == |selected|
    ensures forall k :: 0 <= k < |selected| ==> cards[k] == CardAt(selected, filtered, k)
    ensures rows == (|selected| + Columns - 1) / Columns
  {
    cards, rows := [], 0;
    var i := 0;
    while i < |selected|
      invariant i == rows * Columns && i <= |selected| + Columns - 1
      invariant |cards| == if i <= |selected| then i else |selected|
      invariant forall k :: 0 <= k < |cards| ==> cards[k] == CardAt(selected, filtered, k)
    {
      var row := rows;
      for j := 0 to Columns
        invariant |cards| == if i + j <= |selected| then i + j else |selected|
        invariant forall k :: 0 <= k < |cards| ==> cards[k] == CardAt(selected, filtered, k)
      {
        if i + j < |selected| {
          var segment := selected[i + j];
          var segRows := SegmentRows(filtered, segment);
          var card := Card(i + j, row, j, segment, Summarize(segRows), ColorFor(segment), InsightFor(segment));
          Position(row, j);
          assert card == CardAt(selected, filtered, i + j);
          cards := cards + [card];
        }
      }
      rows := rows + 1;
      i := i + Columns;
    }
    RowCount(|selected|, rows);
  }

  /** Column j of row r holds the card at position r * 2 + j. */
  lemma Position(r: nat, j: nat)
    requires j < Columns
    ensures (r * Columns + j) / Columns == r && (r * Columns + j) % Columns == j
  {
  }

  /** The loop stops at the first multiple of two that reaches n: ceil(n / 2) rows. */
  lemma RowCount(n: nat, rows: nat)
    requires n <= rows * Columns <= n + Columns - 1
    ensures rows == (n + Columns - 1) / Columns
  {
  }

  /** No row holds more than two cards. */
  lemma AtMostTwoPerRow(selected: seq<Label>, filtered: seq<Customer>, a: nat, b: nat, c: nat)
    requires a < b < c < |selected|
    ensures !(CardAt(selected, filtered, a).row == CardAt(selected, filtered, b).row ==
              CardAt(selected, filtered, c).row)
  {
  }

  /** Rows fill in order: a later card never sits in an earlier row or, in the same row, an earlier column. */
  lemma RowMajorOrder(selected: seq<Label>, filtered: seq<Customer>, a: nat, b: nat)
    requires a < b < |selected|
    ensures CardAt(selected, filtered, a).row <= CardAt(selected, filtered, b).row
    ensures CardAt(selected, filtered, a).row == CardAt(selected, filtered, b).row ==>
      CardAt(selected, filtered, a).column < CardAt(selected, filtered, b).column
  {
  }

  /** The customer counts shown on a row of cards, added up. */
  function CardCountTotal(cards: seq<Card>): nat {
    if cards == [] then 0 else cards[0].summary.count + CardCountTotal(cards[1..])
  }

  /** Cards that each count their own segment add up to the per-segment counts. */
  lemma {:induction false} CardCountTotalIsSegmentCounts(cards: seq<Card>, selected: seq<Label>, filtered: seq<Customer>)
    requires |cards| == |selected|
    requires forall k :: 0 <= k < |cards| ==> cards[k].summary.count == |SegmentRows(filtered, selected[k])|
    ensures CardCountTotal(cards) == SegmentCounts(filtered, selected)
  {
    if cards != [] {
      CardCountTotalIsSegmentCounts(cards[1..], selected[1..], filtered);
    }
  }
}
