/**
 * The "Top N customers by Monetary" table: the filtered rows sorted by
 * Monetary in descending order, then the first N of them. The sort the
 * dashboard relies on is not stable, so nothing here says in which order
 * rows with equal Monetary values come out.
 */
module TopN {
  import opened Records

  /** Bounds and default of the Top N slider. */
  const MinTopN: int := 5
  const MaxTopN: int := 50
  const DefaultTopN: int := 10

  /** A value the slider can produce. */
  type SliderValue = n: int | MinTopN <= n <= MaxTopN witness DefaultTopN

  /** Monetary never increases along the sequence. */
  predicate Descending(rows: seq<Customer>) {
    forall i, j :: 0 <= i < j < |rows| ==> rows[j].monetary <= rows[i].monetary
  }

  /** Prepending a row no smaller than every row of a descending sequence keeps it descending. */
  lemma DescendingCons(h: Customer, t: seq<Customer>)
    requires Descending(t)
    requires forall i :: 0 <= i < |t| ==> t[i].monetary <= h.monetary
    ensures Descending([h] + t)
  {
    forall i, j | 0 <= i < j < |[h] + t| ensures ([h] + t)[j].monetary <= ([h] + t)[i].monetary {
      if i > 0 {
        assert ([h] + t)[i] == t[i - 1];
      }
      assert ([h] + t)[j] == t[j - 1];
    }
  }

  /** Inserts a row into a descending sequence, keeping it descending. */
  function Insert(c: Customer, sorted: seq<Customer>): (r: seq<Customer>)
    requires Descending(sorted)
    ensures Descending(r)
    ensures multiset(r) == multiset(sorted) + multiset{c}
  {
    if sorted == [] || sorted[0].monetary <= c.monetary then
      DescendingCons(c, sorted);
      [c] + sorted
    else
      var head, tail := sorted[0], sorted[1..];
      assert sorted == [head] + tail;
      var rest := Insert(c, tail);
      forall i | 0 <= i < |rest| ensures rest[i].monetary <= head.monetary {
        assert rest[i] in multiset(rest);
        assert rest[i] == c || rest[i] in multiset(tail);
      }
      DescendingCons(head, rest);
      [head] + rest
  }

  /** The rows in descending order of Monetary (ties in no promised order). */
  function SortDescending(rows: seq<Customer>): (r: seq<Customer>)
    ensures Descending(r)
    ensures multiset(r) == multiset(rows)
  {
    if rows == [] then []
    else
      assert rows == [rows[0]] + rows[1..];
      Insert(rows[0], SortDescending(rows[1..]))
  }

  function Min(a: int, b: int): int {
    if a <= b then a else b
  }

  /**
   * What a Top N table is: min(n, |rows|) of the rows, in descending order
   * of Monetary, with no row left out whose Monetary exceeds a row kept.
   */
  predicate IsTopSelection(rows: seq<Customer>, n: nat, r: seq<Customer>) {
    && |r| == Min(n, |rows|)
    && Descending(r)
    && multiset(r) <= multiset(rows)
    && forall x, y :: x in multiset(rows) - multiset(r) && y in r ==> x.monetary <= y.monetary
  }

  /** The first n rows of the sorted table; fewer rows than n yield all of them. */
  function Top(rows: seq<Customer>, n: nat): (r: seq<Customer>)
    ensures IsTopSelection(rows, n, r)
  {
    var sorted := SortDescending(rows);
    PrefixIsTop(rows, sorted, n);
    sorted[..Min(n, |sorted|)]
  }

  /** A prefix of a descending reordering of the table is a Top N selection. */
  lemma PrefixIsTop(rows: seq<Customer>, sorted: seq<Customer>, n: nat)
    requires Descending(sorted) && multiset(sorted) == multiset(rows)
    ensures IsTopSelection(rows, n, sorted[..Min(n, |sorted|)])
  {
    var k := Min(n, |sorted|);
    assert |sorted| == |rows| by {
      assert |multiset(sorted)| == |multiset(rows)|;
    }
    var kept, dropped := sorted[..k], sorted[k..];
    assert Descending(kept) by {
      forall p, q | 0 <= p < q < |kept| ensures kept[q].monetary <= kept[p].monetary {
        assert kept[q] == sorted[q] && kept[p] == sorted[p];
      }
    }
    assert multiset(rows) - multiset(kept) == multiset(dropped) by {
      assert sorted == kept + dropped;
    }
    DroppedBelowKept(sorted, k);
  }

  /** Splitting a descending sequence, every row after the cut is at most every row before it. */
  lemma DroppedBelowKept(sorted: seq<Customer>, k: nat)
    requires Descending(sorted) && k <= |sorted|
    ensures forall x, y :: x in multiset(sorted[k..]) && y in sorted[..k] ==> x.monetary <= y.monetary
  {
    forall x: Customer, y: Customer | x in multiset(sorted[k..]) && y in sorted[..k] ensures x.monetary <= y.monetary {
      var p :| 0 <= p < |sorted[k..]| && sorted[k..][p] == x;
      var q :| 0 <= q < |sorted[..k]| && sorted[..k][q] == y;
      assert sorted[k + p] == x && sorted[q] == y;
    }
  }

  /** When n covers the whole table, the Top N table is all of it, reordered. */
  lemma TopOfWholeTable(rows: seq<Customer>, n: nat)
    requires |rows| <= n
    ensures multiset(Top(rows, n)) == multiset(rows)
  {
    var r := Top(rows, n);
    assert |multiset(r)| == |multiset(rows)|;
    assert multiset(rows) - multiset(r) == multiset{} by {
      assert |multiset(rows) - multiset(r)| == |multiset(rows)| - |multiset(r)| by {
        assert multiset(rows) == multiset(r) + (multiset(rows) - multiset(r));
      }
    }
    assert multiset(rows) == multiset(r) + (multiset(rows) - multiset(r));
  }

  /** The number of rows whose Monetary is at least v. */
  function CountAtLeast(s: seq<Customer>, v: real): nat {
    if s == [] then 0 else (if v <= s[0].monetary then 1 else 0) + CountAtLeast(s[1..], v)
  }

  lemma {:induction false} CountAtLeastAppend(a: seq<Customer>, b: seq<Customer>, v: real)
    ensures CountAtLeast(a + b, v) == CountAtLeast(a, v) + CountAtLeast(b, v)
  {
    if a == [] {
      assert a + b == b;
    } else {
      assert (a + b)[1..] == a[1..] + b;
      CountAtLeastAppend(a[1..], b, v);
    }
  }

  /**
   * If s is covered by t together with rows all below v, then s has no more
   * rows reaching v than t has.
   */
  lemma {:induction false} CountAtLeastCovered(s: seq<Customer>, t: seq<Customer>, extra: multiset<Customer>, v: real)
    requires multiset(s) <= multiset(t) + extra
    requires forall x :: x in extra ==> x.monetary < v
    ensures CountAtLeast(s, v) <= CountAtLeast(t, v)
    decreases |s|
  {
    if s != [] {
      var x := s[0];
      assert s == [x] + s[1..];
      if v <= x.monetary {
        assert x in multiset(s);
        assert x !in extra;
        assert x in multiset(t);
        var i :| 0 <= i < |t| && t[i] == x;
        var rest := t[..i] + t[i + 1..];
        assert t == t[..i] + [x] + t[i + 1..];
        assert multiset(t) == multiset(rest) + multiset{x};
        assert multiset(s) == multiset(s[1..]) + multiset{x};
        forall y ensures multiset(s[1..])[y] <= (multiset(rest) + extra)[y] {
          assert multiset(s)[y] <= (multiset(t) + extra)[y];
        }
        assert multiset(s[1..]) <= multiset(rest) + extra;
        CountAtLeastCovered(s[1..], rest, extra, v);
        CountAtLeastAppend(t[..i] + [x], t[i + 1..], v);
        CountAtLeastAppend(t[..i], [x], v);
        CountAtLeastAppend(t[..i], t[i + 1..], v);
      } else {
        assert multiset(s[1..]) <= multiset(s);
        CountAtLeastCovered(s[1..], t, extra, v);
      }
    }
  }

  /** In a descending sequence only the first i rows can reach a value above row i. */
  lemma {:induction false} CountAtLeastDescending(s: seq<Customer>, i: nat, v: real)
    requires Descending(s) && i < |s| && s[i].monetary < v
    ensures CountAtLeast(s, v) <= i
  {
    if i > 0 {
      assert Descending(s[1..]) by {
        forall p, q | 0 <= p < q < |s[1..]| ensures s[1..][q].monetary <= s[1..][p].monetary {
          assert s[1..][q] == s[q + 1] && s[1..][p] == s[p + 1];
        }
      }
      CountAtLeastDescending(s[1..], i - 1, v);
    } else {
      CountAtLeastBelow(s, v);
    }
  }

  lemma {:induction false} CountAtLeastBelow(s: seq<Customer>, v: real)
    requires Descending(s) && s != [] && s[0].monetary < v
    ensures CountAtLeast(s, v) == 0
  {
    if |s| > 1 {
      assert Descending(s[1..]) by {
        forall p, q | 0 <= p < q < |s[1..]| ensures s[1..][q].monetary <= s[1..][p].monetary {
          assert s[1..][q] == s[q + 1] && s[1..][p] == s[p + 1];
        }
      }
      CountAtLeastBelow(s[1..], v);
    }
  }

  /** In a descending sequence the first i + 1 rows all reach the value of row i. */
  lemma {:induction false} CountAtLeastPrefix(s: seq<Customer>, i: nat)
    requires Descending(s) && i < |s|
    ensures i + 1 <= CountAtLeast(s, s[i].monetary)
  {
    if i > 0 {
      assert Descending(s[1..]) by {
        forall p, q | 0 <= p < q < |s[1..]| ensures s[1..][q].monetary <= s[1..][p].monetary {
          assert s[1..][q] == s[q + 1] && s[1..][p] == s[p + 1];
        }
      }
      assert s[1..][i - 1] == s[i];
      CountAtLeastPrefix(s[1..], i - 1);
    }
  }

  /**
   * A Top N table is determined up to the order of equal Monetary values:
   * any two selections meeting the definition have the same Monetary
   * column, position by position.
   */
  lemma TopUniqueUpToTies(rows: seq<Customer>, n: nat, a: seq<Customer>, b: seq<Customer>)
    requires IsTopSelection(rows, n, a) && IsTopSelection(rows, n, b)
    ensures |a| == |b|
    ensures forall i :: 0 <= i < |a| ==> a[i].monetary == b[i].monetary
  {
    forall i | 0 <= i < |a| ensures a[i].monetary == b[i].monetary {
      if a[i].monetary > b[i].monetary {
        TopCannotExceed(rows, n, a, b, i);
      } else if b[i].monetary > a[i].monetary {
        TopCannotExceed(rows, n, b, a, i);
      }
    }
  }

  /** Row i of one Top N selection cannot exceed row i of another. */
  lemma TopCannotExceed(rows: seq<Customer>, n: nat, a: seq<Customer>, b: seq<Customer>, i: nat)
    requires IsTopSelection(rows, n, a) && IsTopSelection(rows, n, b)
    requires i < |a|
    ensures a[i].monetary <= b[i].monetary
  {
    if a[i].monetary > b[i].monetary {
      var v := a[i].monetary;
      CountAtLeastPrefix(a, i);
      CountAtLeastCovered(a, rows, multiset{}, v);
      var extra := multiset(rows) - multiset(b);
      forall x | x in extra ensures x.monetary < v {
        assert b[i] in b;
      }
      assert multiset(rows) <= multiset(b) + extra;
      CountAtLeastCovered(rows, b, extra, v);
      CountAtLeastDescending(b, i, v);
      assert false;
    }
  }

  /** A row whose Monetary is strictly above every other row's is the whole Top 1 table. */
  lemma TopOneIsStrictMaximum(rows: seq<Customer>, p: nat)
    requires p < |rows|
    requires forall i :: 0 <= i < |rows| && i != p ==> rows[i].monetary < rows[p].monetary
    ensures Top(rows, 1) == [rows[p]]
  {
    var r := Top(rows, 1);
    var y := r[0];
    assert r == [y];
    assert y in multiset(rows) by {
      assert y in multiset(r);
    }
    var k :| 0 <= k < |rows| && rows[k] == y;
    assert rows[p] in multiset(rows);
    if k != p {
      assert false;
    }
  }
}
