/**
 * Row ordering for `sort_values(order_by)`: each cell is encoded as a
 * sequence of reals and a row's key is the concatenation of its order-by
 * cells' encodings, compared lexicographically. Numbers (and booleans)
 * compare by value, text by code point with a proper prefix first,
 * timestamps and dates field by field, and missing values sort last.
 * Text encodings end in a terminator below every character code and the
 * other encodings have a fixed length per kind, so comparing the
 * concatenation compares the order-by columns one after the other.
 */
module Ordering {
  import opened Values

  function TextKey(s: string): (r: seq<real>)
    ensures |r| == |s| + 1
  {
    seq(|s|, i requires 0 <= i < |s| => (s[i] as int + 1) as real) + [0.0]
  }

  function ValueKey(v: Value): seq<real> {
    match v
    case Int(i) => [0.0, i as real]
    case Real(x) => [0.0, x]
    case Flag(b) => [0.0, if b then 1.0 else 0.0]
    case Text(s) => [1.0] + TextKey(s)
    case Moment(t) => [2.0, t.year as real, t.month as real, t.day as real, t.nanosOfDay as real]
    case Day(y, m, d) => [3.0, y as real, m as real, d as real]
    case Null => [4.0]
  }

  /** The sort key of a row for the order-by columns `keys`. */
  function RowKey(r: Row, keys: seq<string>): seq<real> {
    if keys == [] then [] else ValueKey(Get(r, keys[0])) + RowKey(r, keys[1..])
  }

  /** Lexicographic order on keys; a proper prefix comes first. */
  predicate LexLeq(a: seq<real>, b: seq<real>)
    decreases |a|
  {
    a == [] || (b != [] && (a[0] < b[0] || (a[0] == b[0] && LexLeq(a[1..], b[1..]))))
  }

  lemma {:induction false} LexTotal(a: seq<real>, b: seq<real>)
    ensures LexLeq(a, b) || LexLeq(b, a)
    decreases |a|
  {
    if a != [] && b != [] && a[0] == b[0] {
      LexTotal(a[1..], b[1..]);
    }
  }

  lemma {:induction false} LexTransitive(a: seq<real>, b: seq<real>, c: seq<real>)
    requires LexLeq(a, b) && LexLeq(b, c)
    ensures LexLeq(a, c)
    decreases |a|
  {
    if a != [] && a[0] == b[0] && b[0] == c[0] {
      LexTransitive(a[1..], b[1..], c[1..]);
    }
  }

  predicate RowLeq(x: Row, y: Row, keys: seq<string>) {
    LexLeq(RowKey(x, keys), RowKey(y, keys))
  }

  predicate SortedBy(rows: seq<Row>, keys: seq<string>) {
    forall i, j :: 0 <= i < j < |rows| ==> RowLeq(rows[i], rows[j], keys)
  }

  /** Puts `x` in front of the first row it does not exceed (so ties keep their order). */
  function Insert(x: Row, rows: seq<Row>, keys: seq<string>): (r: seq<Row>)
    ensures |r| == |rows| + 1
  {
    if rows == [] then [x]
    else if RowLeq(x, rows[0], keys) then [x] + rows
    else [rows[0]] + Insert(x, rows[1..], keys)
  }

  lemma {:induction false} InsertPermutes(x: Row, rows: seq<Row>, keys: seq<string>)
    ensures multiset(Insert(x, rows, keys)) == multiset(rows) + multiset{x}
  {
    if rows == [] {
    } else if RowLeq(x, rows[0], keys) {
      assert Insert(x, rows, keys) == [x] + rows;
    } else {
      var rest := Insert(x, rows[1..], keys);
      InsertPermutes(x, rows[1..], keys);
      assert Insert(x, rows, keys) == [rows[0]] + rest;
      assert multiset([rows[0]] + rest) == multiset{rows[0]} + multiset(rest);
      assert rows == [rows[0]] + rows[1..];
      assert multiset(rows) == multiset{rows[0]} + multiset(rows[1..]);
    }
  }

  lemma {:induction false} InsertMembers(x: Row, rows: seq<Row>, keys: seq<string>, y: Row)
    requires y in Insert(x, rows, keys)
    ensures y == x || y in rows
  {
    if rows != [] && !RowLeq(x, rows[0], keys) && y != rows[0] {
      InsertMembers(x, rows[1..], keys, y);
    }
  }

  /** A row that precedes every row of a sorted sequence can go in front of it. */
  lemma ConsSorted(y: Row, rest: seq<Row>, keys: seq<string>)
    requires SortedBy(rest, keys)
    requires forall j :: 0 <= j < |rest| ==> RowLeq(y, rest[j], keys)
    ensures SortedBy([y] + rest, keys)
  {
    var r := [y] + rest;
    forall i, j | 0 <= i < j < |r| ensures RowLeq(r[i], r[j], keys) {
      assert r[j] == rest[j - 1];
      if i > 0 {
        assert r[i] == rest[i - 1];
      }
    }
  }

  /** Every row of `Insert(x, rows)` but `x` comes from `rows`, at some index. */
  lemma InsertedFrom(x: Row, rows: seq<Row>, keys: seq<string>, y: Row) returns (k: nat)
    requires y in Insert(x, rows, keys) && y != x
    ensures k < |rows| && rows[k] == y
  {
    InsertMembers(x, rows, keys, y);
    k :| 0 <= k < |rows| && rows[k] == y;
  }

  lemma {:induction false} InsertSorted(x: Row, rows: seq<Row>, keys: seq<string>)
    requires SortedBy(rows, keys)
    ensures SortedBy(Insert(x, rows, keys), keys)
  {
    if rows == [] {
    } else if RowLeq(x, rows[0], keys) {
      forall j | 0 <= j < |rows| ensures RowLeq(x, rows[j], keys) {
        if j > 0 {
          LexTransitive(RowKey(x, keys), RowKey(rows[0], keys), RowKey(rows[j], keys));
        }
      }
      ConsSorted(x, rows, keys);
    } else {
      var tail := rows[1..];
      assert SortedBy(tail, keys) by {
        forall i, j | 0 <= i < j < |tail| ensures RowLeq(tail[i], tail[j], keys) {
          assert tail[i] == rows[i + 1] && tail[j] == rows[j + 1];
        }
      }
      InsertSorted(x, tail, keys);
      LexTotal(RowKey(x, keys), RowKey(rows[0], keys));
      var rest := Insert(x, tail, keys);
      forall j | 0 <= j < |rest| ensures RowLeq(rows[0], rest[j], keys) {
        if rest[j] != x {
          var k := InsertedFrom(x, tail, keys, rest[j]);
          assert rows[k + 1] == rest[j];
        }
      }
      ConsSorted(rows[0], rest, keys);
    }
  }

  /** A stable insertion sort by the order-by columns. */
  function SortRows(rows: seq<Row>, keys: seq<string>): (r: seq<Row>)
    ensures |r| == |rows|
  {
    if rows == [] then [] else Insert(rows[0], SortRows(rows[1..], keys), keys)
  }

  /** The sort only reorders: the same rows, each as often as before. */
  lemma {:induction false} SortRowsPermutes(rows: seq<Row>, keys: seq<string>)
    ensures multiset(SortRows(rows, keys)) == multiset(rows)
  {
    if rows != [] {
      SortRowsPermutes(rows[1..], keys);
      InsertPermutes(rows[0], SortRows(rows[1..], keys), keys);
      assert rows == [rows[0]] + rows[1..];
    }
  }

  lemma {:induction false} SortRowsSorted(rows: seq<Row>, keys: seq<string>)
    ensures SortedBy(SortRows(rows, keys), keys)
  {
    if rows != [] {
      SortRowsSorted(rows[1..], keys);
      InsertSorted(rows[0], SortRows(rows[1..], keys), keys);
    }
  }
}
