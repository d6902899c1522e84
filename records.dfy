/**
 * One row of the customer segmentation table: a segment label and the three
 * RFM metrics. The identifier column and any other columns of the table
 * play no part in the logic and are not carried.
 */
module Records {

  /** A segment label such as "Frequent Spenders". */
  type Label = string

  datatype Customer = Customer(
    segment: Label,
    recency: real,    // days since the last purchase
    frequency: real,  // number of transactions
    monetary: real    // total spend
  )

  /** The three numeric columns that the dashboard averages. */
  datatype Metric = Recency | Frequency | Monetary

  /** The value of one numeric column in a row. */
  function Value(c: Customer, m: Metric): real {
    match m
    case Recency => c.recency
    case Frequency => c.frequency
    case Monetary => c.monetary
  }

  /** True when no label occurs twice. */
  predicate NoDuplicates<T(==)>(s: seq<T>) {
    forall i, j :: 0 <= i < j < |s| ==> s[i] != s[j]
  }
}
