/**
 * Segment discovery (the distinct labels of the Segment column, which are
 * also the default selection of the segment picker) and the segment filter
 * that keeps the rows whose label is selected.
 */
module Segments {
  import opened Records

  /** The label `x` is the segment of some row. */
  predicate Occurs(rows: seq<Customer>, x: Label) {
    exists i :: 0 <= i < |rows| && rows[i].segment == x
  }

  /** Some row labelled `a` comes before every row labelled `b`. */
  predicate SeenBefore(rows: seq<Customer>, a: Label, b: Label) {
    exists p :: 0 <= p < |rows| && rows[p].segment == a &&
      forall q :: 0 <= q <= p ==> rows[q].segment != b
  }

  /**
   * The distinct segment labels in order of first appearance, as the
   * column's unique() gives them.
   */
  function Unique(rows: seq<Customer>): (u: seq<Label>)
    ensures NoDuplicates(u)
    ensures forall x :: x in u <==> Occurs(rows, x)
    ensures forall i, j :: 0 <= i < j < |u| ==> SeenBefore(rows, u[i], u[j])
  {
    if rows == [] then []
    else
      var init := rows[..|rows| - 1];
      var prev := Unique(init);
      var x := rows[|rows| - 1].segment;
      assert forall y :: Occurs(init, y) ==> Occurs(rows, y) by {
        forall y | Occurs(init, y) ensures Occurs(rows, y) {
          var i :| 0 <= i < |init| && init[i].segment == y;
          assert rows[i].segment == y;
        }
      }
      assert forall y :: Occurs(rows, y) ==> Occurs(init, y) || y == x by {
        forall y | Occurs(rows, y) && y != x ensures Occurs(init, y) {
          var i :| 0 <= i < |rows| && rows[i].segment == y;
          assert init[i].segment == y;
        }
      }
      assert forall a, b :: SeenBefore(init, a, b) ==> SeenBefore(rows, a, b) by {
        forall a, b | SeenBefore(init, a, b) ensures SeenBefore(rows, a, b) {
          var p :| 0 <= p < |init| && init[p].segment == a &&
            forall q :: 0 <= q <= p ==> init[q].segment != b;
          assert rows[p].segment == a;
        }
      }
      if x in prev then prev
      else
        var u := prev + [x];
        assert forall i :: 0 <= i < |prev| ==> SeenBefore(rows, u[i], x) by {
          forall i | 0 <= i < |prev| ensures SeenBefore(rows, u[i], x) {
            assert Occurs(init, prev[i]);
            var p :| 0 <= p < |init| && init[p].segment == prev[i];
            assert !Occurs(init, x);
            assert rows[p].segment == u[i];
          }
        }
        u
  }

  /**
   * The rows whose segment is one of the selected labels, in table order
   * (a boolean mask built from isin). An empty selection keeps nothing.
   */
  function Filter(rows: seq<Customer>, selected: seq<Label>): (r: seq<Customer>)
    ensures |r| <= |rows|
    ensures forall c :: c in r <==> c in rows && c.segment in selected
  {
    if rows == [] then []
    else
      var rest := Filter(rows[1..], selected);
      assert forall c :: c in rows <==> c == rows[0] || c in rows[1..];
      if rows[0].segment in selected then [rows[0]] + rest else rest
  }

  /** The rows of one segment (an equality mask on the Segment column). */
  function SegmentRows(rows: seq<Customer>, s: Label): (r: seq<Customer>)
    ensures forall c :: c in r <==> c in rows && c.segment == s
  {
    Filter(rows, [s])
  }

  /** Filtering keeps table order: it commutes with concatenation. */
  lemma {:induction false} FilterAppend(a: seq<Customer>, b: seq<Customer>, selected: seq<Label>)
    ensures Filter(a + b, selected) == Filter(a, selected) + Filter(b, selected)
  {
    if a == [] {
      assert a + b == b;
    } else {
      assert (a + b)[0] == a[0];
      assert (a + b)[1..] == a[1..] + b;
      FilterAppend(a[1..], b, selected);
    }
  }

  /** On a single row the filter keeps the row exactly when its label is selected. */
  lemma FilterSingleton(c: Customer, selected: seq<Label>)
    ensures Filter([c], selected) == if c.segment in selected then [c] else []
  {
    assert [c][1..] == [];
  }

  /** Each row is kept as many times as it occurs when selected, and never otherwise. */
  lemma {:induction false} FilterMultiplicity(rows: seq<Customer>, selected: seq<Label>, c: Customer)
    ensures multiset(Filter(rows, selected))[c] ==
      if c.segment in selected then multiset(rows)[c] else 0
  {
    if rows != [] {
      FilterMultiplicity(rows[1..], selected, c);
      assert rows == [rows[0]] + rows[1..];
    }
  }

  /** An empty selection yields an empty table, not the whole table. */
  lemma {:induction false} FilterNothingSelected(rows: seq<Customer>)
    ensures Filter(rows, []) == []
  {
    if rows != [] {
      FilterNothingSelected(rows[1..]);
    }
  }

  /** When every label of the table is selected, the filter keeps the whole table. */
  lemma {:induction false} FilterAllSelected(rows: seq<Customer>, selected: seq<Label>)
    requires forall i :: 0 <= i < |rows| ==> rows[i].segment in selected
    ensures Filter(rows, selected) == rows
  {
    if rows != [] {
      FilterAllSelected(rows[1..], selected);
      assert rows == [rows[0]] + rows[1..];
    }
  }

  /** The default selection (all distinct labels) keeps the whole table. */
  lemma DefaultSelectionKeepsAll(rows: seq<Customer>)
    ensures Filter(rows, Unique(rows)) == rows
  {
    var u := Unique(rows);
    forall i | 0 <= i < |rows| ensures rows[i].segment in u {
      assert Occurs(rows, rows[i].segment);
    }
    FilterAllSelected(rows, u);
  }

  /**
   * Narrowing a filtered table to one selected segment gives the same rows
   * as narrowing the whole table to that segment.
   */
  lemma {:induction false} SegmentOfFiltered(rows: seq<Customer>, selected: seq<Label>, s: Label)
    requires s in selected
    ensures SegmentRows(Filter(rows, selected), s) == SegmentRows(rows, s)
  {
    if rows != [] {
      SegmentOfFiltered(rows[1..], selected, s);
      if rows[0].segment in selected {
        var rest := Filter(rows[1..], selected);
        assert Filter(rows, selected) == [rows[0]] + rest;
        assert ([rows[0]] + rest)[1..] == rest;
      }
    }
  }
}
