/**
 * The key metrics of a table: the number of customers and the mean of each
 * RFM column. A table with no rows has no mean; the model gives None there
 * (the dashboard shows an undefined value and carries on).
 */
module Aggregates {
  import opened Wrappers
  import opened Records
  import opened Segments

  /** The column total. */
  function Sum(rows: seq<Customer>, m: Metric): real {
    if rows == [] then 0.0 else Value(rows[0], m) + Sum(rows[1..], m)
  }

  /** The arithmetic mean of a column: None for an empty table. */
  function Mean(rows: seq<Customer>, m: Metric): (r: Option<real>)
    ensures r.None? <==> rows == []
    ensures r.Some? ==> r.value * (|rows| as real) == Sum(rows, m)
  {
    if rows == [] then None else Some(Sum(rows, m) / (|rows| as real))
  }

  datatype Summary = Summary(
    count: nat,
    avgRecency: Option<real>,
    avgFrequency: Option<real>,
    avgMonetary: Option<real>
  )

  /** Total customers and the three averages of a table. */
  function Summarize(rows: seq<Customer>): (s: Summary)
    ensures s.count == |rows|
    ensures s.avgRecency == Mean(rows, Recency)
    ensures s.avgFrequency == Mean(rows, Frequency)
    ensures s.avgMonetary == Mean(rows, Monetary)
  {
    Summary(|rows|, Mean(rows, Recency), Mean(rows, Frequency), Mean(rows, Monetary))
  }

  /** An empty table has a count of zero and no means, and summarising it does not fail. */
  lemma SummarizeEmpty()
    ensures Summarize([]) == Summary(0, None, None, None)
  {
  }

  /** A column total is additive over concatenation. */
  lemma {:induction false} SumAppend(a: seq<Customer>, b: seq<Customer>, m: Metric)
    ensures Sum(a + b, m) == Sum(a, m) + Sum(b, m)
  {
    if a == [] {
      assert a + b == b;
    } else {
      assert (a + b)[1..] == a[1..] + b;
      SumAppend(a[1..], b, m);
    }
  }

  /** Bounds on every value bound the column total. */
  lemma {:induction false} SumBounds(rows: seq<Customer>, m: Metric, lo: real, hi: real)
    requires forall i :: 0 <= i < |rows| ==> lo <= Value(rows[i], m) <= hi
    ensures lo * (|rows| as real) <= Sum(rows, m) <= hi * (|rows| as real)
  {
    if rows != [] {
      SumBounds(rows[1..], m, lo, hi);
      var n := |rows[1..]| as real;
      assert lo * (n + 1.0) == lo * n + lo;
      assert hi * (n + 1.0) == hi * n + hi;
    }
  }

  /** A mean lies between the smallest and the largest value of its column. */
  lemma MeanBounds(rows: seq<Customer>, m: Metric, lo: real, hi: real)
    requires rows != []
    requires forall i :: 0 <= i < |rows| ==> lo <= Value(rows[i], m) <= hi
    ensures lo <= Mean(rows, m).value <= hi
  {
    SumBounds(rows, m, lo, hi);
    QuotientBounds(Sum(rows, m), |rows| as real, lo, hi);
  }

  lemma QuotientBounds(s: real, n: real, lo: real, hi: real)
    requires n > 0.0
    requires lo * n <= s <= hi * n
    ensures lo <= s / n <= hi
  {
    var q := s / n;
    assert q * n == s;
    if q < lo {
      ScaleStrict(q, lo, n);
    }
    if q > hi {
      ScaleStrict(hi, q, n);
    }
  }

  lemma ScaleStrict(a: real, b: real, n: real)
    requires a < b && n > 0.0
    ensures a * n < b * n
  {
    assert (b - a) * n > 0.0;
  }

  /** How many times `x` is listed in `labels`. */
  function Occurrences(labels: seq<Label>, x: Label): nat {
    if labels == [] then 0
    else (if labels[0] == x then 1 else 0) + Occurrences(labels[1..], x)
  }

  /** The per-segment customer counts, summed over a list of labels. */
  function SegmentCounts(rows: seq<Customer>, labels: seq<Label>): nat {
    if labels == [] then 0
    else |SegmentRows(rows, labels[0])| + SegmentCounts(rows, labels[1..])
  }

  lemma {:induction false} OccurrencesOfDistinct(labels: seq<Label>, x: Label)
    requires NoDuplicates(labels)
    ensures Occurrences(labels, x) == if x in labels then 1 else 0
  {
    if labels != [] {
      OccurrencesOfDistinct(labels[1..], x);
    }
  }

  lemma {:induction false} SegmentCountsOfEmpty(labels: seq<Label>)
    ensures SegmentCounts([], labels) == 0
  {
    if labels != [] {
      SegmentCountsOfEmpty(labels[1..]);
    }
  }

  /** Splitting off the first row adds one for every listing of its label. */
  lemma {:induction false} SegmentCountsStep(rows: seq<Customer>, labels: seq<Label>)
    requires rows != []
    ensures SegmentCounts(rows, labels) ==
      SegmentCounts(rows[1..], labels) + Occurrences(labels, rows[0].segment)
  {
    if labels != [] {
      SegmentCountsStep(rows, labels[1..]);
    }
  }

  /**
   * Over distinct labels the per-segment counts add up to the size of the
   * table filtered to those labels.
   */
  lemma {:induction false} SegmentCountsPartition(rows: seq<Customer>, labels: seq<Label>)
    requires NoDuplicates(labels)
    ensures SegmentCounts(rows, labels) == |Filter(rows, labels)|
  {
    if rows == [] {
      SegmentCountsOfEmpty(labels);
    } else {
      SegmentCountsPartition(rows[1..], labels);
      SegmentCountsStep(rows, labels);
      OccurrencesOfDistinct(labels, rows[0].segment);
    }
  }

  lemma {:induction false} FilterIdempotent(rows: seq<Customer>, selected: seq<Label>)
    ensures Filter(Filter(rows, selected), selected) == Filter(rows, selected)
  {
    var f := Filter(rows, selected);
    forall i | 0 <= i < |f| ensures f[i].segment in selected {
      assert f[i] in f;
    }
    FilterAllSelected(f, selected);
  }

  /**
   * The counts on the per-segment cards add up to the Total Customers
   * metric of the filtered table, when the selected labels are distinct.
   */
  lemma CardCountsAddUp(rows: seq<Customer>, selected: seq<Label>)
    requires NoDuplicates(selected)
    ensures SegmentCounts(Filter(rows, selected), selected) == Summarize(Filter(rows, selected)).count
  {
    SegmentCountsPartition(Filter(rows, selected), selected);
    FilterIdempotent(rows, selected);
  }
}
