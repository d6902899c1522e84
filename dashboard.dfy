/**
 * One pass of the dashboard script for a loaded table, a segment
 * selection and a Top N slider value: discover the segments, filter,
 * compute the key metrics and the top table, and lay out the cards.
 */
module Dashboard {
  import opened Wrappers
  import opened Records
  import opened Segments
  import opened Aggregates
  import opened TopN
  import opened Cards

  /** What the Charts tab shows, recomputed from the current selection. */
  datatype View = View(
    segments: seq<Label>,      // the options of the segment picker
    filtered: seq<Customer>,   // the rows of the selected segments
    metrics: Summary,          // Total Customers and the three averages
    top: seq<Customer>         // Top N customers by Monetary
  )

  /** The values the charts tab is built from. */
  function ViewOf(df: seq<Customer>, selected: seq<Label>, topN: SliderValue): (v: View)
    ensures NoDuplicates(v.segments) && forall x :: x in v.segments <==> Occurs(df, x)
    ensures forall c :: c in v.filtered <==> c in df && c.segment in selected
    ensures v.metrics.count == |v.filtered|
    ensures IsTopSelection(v.filtered, topN, v.top)
  {
    var filtered := Filter(df, selected);
    View(Unique(df), filtered, Summarize(filtered), Top(filtered, topN))
  }

  /** The default selection (every segment) shows the whole table. */
  lemma DefaultSelectionView(df: seq<Customer>, topN: SliderValue)
    ensures ViewOf(df, Unique(df), topN).filtered == df
    ensures ViewOf(df, Unique(df), topN).metrics.count == |df|
    ensures |ViewOf(df, Unique(df), topN).top| == Min(topN, |df|)
  {
    DefaultSelectionKeepsAll(df);
  }

  /** Clearing the selection shows an empty table with no averages, without failing. */
  lemma EmptySelectionView(df: seq<Customer>, topN: SliderValue)
    ensures ViewOf(df, [], topN).filtered == []
    ensures ViewOf(df, [], topN).metrics == Summary(0, None, None, None)
    ensures ViewOf(df, [], topN).top == []
  {
    FilterNothingSelected(df);
  }

  /**
   * Runs the script once. Returns the charts-tab view, the cards of the
   * insights tab and the number of card rows.
   */
  method Run(df: seq<Customer>, selected: seq<Label>, topN: SliderValue)
    returns (view: View, cards: seq<Card>, rows: nat)
    ensures view == ViewOf(df, selected, topN)
    ensures |cards| == |selected|
    ensures forall k :: 0 <= k < |selected| ==> cards[k] == CardAt(selected, view.filtered, k)
    ensures rows == (|selected| + Columns - 1) / Columns
    ensures NoDuplicates(selected) ==> CardCountTotal(cards) == view.metrics.count
  {
    var segments := Unique(df);
    var filtered := Filter(df, selected);
    view := View(segments, filtered, Summarize(filtered), Top(filtered, topN));
    cards, rows := LayoutCards(selected, filtered);
    CardCountTotalIsSegmentCounts(cards, selected, filtered);
    if NoDuplicates(selected) {
      CardCountsAddUp(df, selected);
    }
  }

  /** The three-row table of the examples below: two rows of segment A, one of B. */
  function ExampleTable(): seq<Customer> {
    [Customer("A", 10.0, 2.0, 100.0), Customer("A", 20.0, 1.0, 50.0), Customer("B", 5.0, 5.0, 200.0)]
  }

  /** Selecting segment A keeps its two rows, whose mean Monetary is 75. */
  lemma ExampleFilterAndMean()
    ensures Filter(ExampleTable(), ["A"]) == ExampleTable()[..2]
    ensures Summarize(Filter(ExampleTable(), ["A"])).avgMonetary == Some(75.0)
  {
    var df := ExampleTable();
    assert df[1..][1..] == [df[2]];
    assert Filter(df[1..][1..], ["A"]) == [];
    assert Filter(df, ["A"]) == df[..2];
    assert Sum(df[..2], Monetary) == 150.0 by {
      assert df[..2][1..] == [df[1]];
    }
  }

  /** The single top customer by Monetary is the B row. */
  lemma ExampleTop()
    ensures Top(ExampleTable(), 1) == [ExampleTable()[2]]
  {
    TopOneIsStrictMaximum(ExampleTable(), 2);
  }
}
