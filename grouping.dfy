/**
 * Group-then-left-join, the machinery behind `link` and `aggregate`:
 * per-key picks (`groupby(...).first()`, `.last()`, the most frequent
 * value) and the left merges that bring them back onto the base rows.
 */
module Grouping {
  import opened Wrappers
  import opened Values
  import opened Ordering

  /** The group key of a row: its cells in the group-by columns. */
  function KeyOf(r: Row, cols: seq<string>): (k: seq<Value>)
    ensures |k| == |cols|
    ensures forall i :: 0 <= i < |cols| ==> k[i] == Get(r, cols[i])
  {
    seq(|cols|, i requires 0 <= i < |cols| => Get(r, cols[i]))
  }

  /** pandas' groupby drops rows whose key holds a missing value. */
  predicate Groupable(k: seq<Value>) {
    Null !in k
  }

  /** The keys that occur in `rows`. */
  function KeysOf(rows: seq<Row>, cols: seq<string>): (ks: set<seq<Value>>)
    ensures forall i :: 0 <= i < |rows| ==> KeyOf(rows[i], cols) in ks
    ensures forall k :: k in ks ==> |k| == |cols|
  {
    set i | 0 <= i < |rows| :: KeyOf(rows[i], cols)
  }

  /** The position of the first row with key `k`, if any. */
  function FirstIndexOf(rows: seq<Row>, cols: seq<string>, k: seq<Value>): (r: Option<nat>)
    ensures r.Some? ==> r.value < |rows| && KeyOf(rows[r.value], cols) == k
    ensures r.Some? ==> forall j :: 0 <= j < r.value ==> KeyOf(rows[j], cols) != k
    ensures r.None? ==> forall j :: 0 <= j < |rows| ==> KeyOf(rows[j], cols) != k
  {
    if rows == [] then None
    else if KeyOf(rows[0], cols) == k then Some(0)
    else match FirstIndexOf(rows[1..], cols, k)
      case None => None
      case Some(j) => Some(j + 1)
  }

  /** The position of the last row with key `k`, if any. */
  function LastIndexOf(rows: seq<Row>, cols: seq<string>, k: seq<Value>): (r: Option<nat>)
    ensures r.Some? ==> r.value < |rows| && KeyOf(rows[r.value], cols) == k
    ensures r.Some? ==> forall j :: r.value < j < |rows| ==> KeyOf(rows[j], cols) != k
    ensures r.None? ==> forall j :: 0 <= j < |rows| ==> KeyOf(rows[j], cols) != k
  {
    if rows == [] then None
    else if KeyOf(rows[|rows| - 1], cols) == k then Some(|rows| - 1)
    else LastIndexOf(rows[..|rows| - 1], cols, k)
  }

  /** `groupby(cols).first()`: for every key, the first row that has it. */
  function PickFirst(rows: seq<Row>, cols: seq<string>): (m: map<seq<Value>, Row>)
    ensures forall k :: k in m <==> k in KeysOf(rows, cols) && Groupable(k)
  {
    map k | k in KeysOf(rows, cols) && Groupable(k) :: rows[FirstIndexOf(rows, cols, k).value]
  }

  /** A row whose complete key no earlier row has is the pick of `first` for that key. */
  lemma PickFirstAt(rows: seq<Row>, cols: seq<string>, i: nat)
    requires i < |rows| && Groupable(KeyOf(rows[i], cols))
    requires forall j :: 0 <= j < i ==> KeyOf(rows[j], cols) != KeyOf(rows[i], cols)
    ensures KeyOf(rows[i], cols) in PickFirst(rows, cols)
    ensures PickFirst(rows, cols)[KeyOf(rows[i], cols)] == rows[i]
  {
    var k := KeyOf(rows[i], cols);
    var m := FirstIndexOf(rows, cols, k);
    assert m.Some?;
    assert m.value == i;
  }

  /** `groupby(cols).last()`: for every key, the last row that has it. */
  function PickLast(rows: seq<Row>, cols: seq<string>): (m: map<seq<Value>, Row>)
    ensures forall k :: k in m <==> k in KeysOf(rows, cols) && Groupable(k)
  {
    map k | k in KeysOf(rows, cols) && Groupable(k) :: rows[LastIndexOf(rows, cols, k).value]
  }

  /** The rows with key `k`, in order. */
  function Matching(rows: seq<Row>, cols: seq<string>, k: seq<Value>): (r: seq<Row>)
    ensures |r| <= |rows|
    ensures forall x :: x in r <==> x in rows && KeyOf(x, cols) == k
    ensures Subsequence(r, rows)
  {
    if rows == [] then []
    else if KeyOf(rows[0], cols) == k then [rows[0]] + Matching(rows[1..], cols, k)
    else Matching(rows[1..], cols, k)
  }

  /**
   * After a sort by `order`, the first row of every group is one of the
   * group's rows and no row of that group sorts before it: `first` after
   * `order_by` picks the earliest row of each group.
   */
  lemma SortedFirstIsLeast(rows: seq<Row>, group: seq<string>, order: seq<string>, r: Row)
    requires r in rows && Groupable(KeyOf(r, group))
    ensures KeyOf(r, group) in PickFirst(SortRows(rows, order), group)
    ensures var p := PickFirst(SortRows(rows, order), group)[KeyOf(r, group)];
      p in rows && KeyOf(p, group) == KeyOf(r, group) && RowLeq(p, r, order)
  {
    var k := KeyOf(r, group);
    var sorted := SortRows(rows, order);
    SortRowsPermutes(rows, order);
    SortRowsSorted(rows, order);
    assert r in multiset(sorted);
    var m :| 0 <= m < |sorted| && sorted[m] == r;
    assert k in KeysOf(sorted, group);
    var j := FirstIndexOf(sorted, group, k).value;
    assert j <= m;
    var p := sorted[j];
    assert p in multiset(rows);
    if j == m {
      LexTotal(RowKey(p, order), RowKey(p, order));
    }
  }

  /** The same for `last`: no row of the group sorts after the pick. */
  lemma SortedLastIsGreatest(rows: seq<Row>, group: seq<string>, order: seq<string>, r: Row)
    requires r in rows && Groupable(KeyOf(r, group))
    ensures KeyOf(r, group) in PickLast(SortRows(rows, order), group)
    ensures var p := PickLast(SortRows(rows, order), group)[KeyOf(r, group)];
      p in rows && KeyOf(p, group) == KeyOf(r, group) && RowLeq(r, p, order)
  {
    var k := KeyOf(r, group);
    var sorted := SortRows(rows, order);
    SortRowsPermutes(rows, order);
    SortRowsSorted(rows, order);
    assert r in multiset(sorted);
    var m :| 0 <= m < |sorted| && sorted[m] == r;
    assert k in KeysOf(sorted, group);
    var j := LastIndexOf(sorted, group, k).value;
    assert m <= j;
    var p := sorted[j];
    assert p in multiset(rows);
    if j == m {
      LexTotal(RowKey(p, order), RowKey(p, order));
    }
  }

  function Count(vals: seq<Value>, v: Value): nat {
    if vals == [] then 0 else (if vals[0] == v then 1 else 0) + Count(vals[1..], v)
  }

  /** `value_counts().idxmax()`, scanning from position `i` with the best position so far. */
  function ModeFrom(vals: seq<Value>, i: nat, best: Option<nat>): (r: Option<nat>)
    requires i <= |vals|
    requires best.Some? ==> best.value < i && vals[best.value] != Null
    requires best.None? ==> forall j :: 0 <= j < i ==> vals[j] == Null
    requires best.Some? ==> forall j :: 0 <= j < i && vals[j] != Null ==> Count(vals, vals[j]) <= Count(vals, vals[best.value])
    requires best.Some? ==> forall j :: 0 <= j < best.value && vals[j] != Null ==> Count(vals, vals[j]) < Count(vals, vals[best.value])
    ensures r.None? <==> forall j :: 0 <= j < |vals| ==> vals[j] == Null
    ensures r.Some? ==> r.value < |vals| && vals[r.value] != Null
    ensures r.Some? ==> forall j :: 0 <= j < |vals| && vals[j] != Null ==> Count(vals, vals[j]) <= Count(vals, vals[r.value])
    ensures r.Some? ==> forall j :: 0 <= j < r.value && vals[j] != Null ==> Count(vals, vals[j]) < Count(vals, vals[r.value])
    decreases |vals| - i
  {
    if i == |vals| then best
    else if vals[i] == Null then ModeFrom(vals, i + 1, best)
    else if best.None? || Count(vals, vals[i]) > Count(vals, vals[best.value]) then ModeFrom(vals, i + 1, Some(i))
    else ModeFrom(vals, i + 1, best)
  }

  /**
   * The most frequent non-missing value; among equally frequent values the
   * one met first. None when every value is missing.
   */
  function ModeOf(vals: seq<Value>): (r: Option<Value>)
    ensures r.None? <==> forall j :: 0 <= j < |vals| ==> vals[j] == Null
    ensures r.Some? ==> r.value != Null && r.value in vals
    ensures r.Some? ==> forall j :: 0 <= j < |vals| && vals[j] != Null ==> Count(vals, vals[j]) <= Count(vals, r.value)
  {
    match ModeFrom(vals, 0, None)
    case None => None
    case Some(b) => Some(vals[b])
  }

  /** A base row widened by the columns `add`, read from the matched row `src` (missing when unmatched). */
  function Extend(r: Row, add: seq<string>, src: Option<Row>): (e: Row)
    ensures forall c :: c !in add ==> Get(e, c) == Get(r, c)
    ensures forall c :: c in add ==> Get(e, c) == if src.Some? then Get(src.value, c) else Null
  {
    r + map c | c in add :: if src.Some? then Get(src.value, c) else Null
  }

  /**
   * A left merge against one picked row per key: every base row is kept,
   * in order, and widened by the pick for its key.
   */
  function JoinPicked(base: seq<Row>, keyCols: seq<string>, picked: map<seq<Value>, Row>, add: seq<string>): (r: seq<Row>)
    ensures |r| == |base|
    ensures forall i, c :: 0 <= i < |base| && c !in add ==> Get(r[i], c) == Get(base[i], c)
    ensures forall i, c :: 0 <= i < |base| && c in add ==>
      Get(r[i], c) == if KeyOf(base[i], keyCols) in picked then Get(picked[KeyOf(base[i], keyCols)], c) else Null
  {
    seq(|base|, i requires 0 <= i < |base| =>
      var k := KeyOf(base[i], keyCols);
      Extend(base[i], add, if k in picked then Some(picked[k]) else None))
  }

  /** The rows one base row turns into in a left merge against all of `right`. */
  function JoinOne(r: Row, keyCols: seq<string>, right: seq<Row>, add: seq<string>): (out: seq<Row>)
    ensures |out| == if |Matching(right, keyCols, KeyOf(r, keyCols))| == 0 then 1 else |Matching(right, keyCols, KeyOf(r, keyCols))|
    ensures Matching(right, keyCols, KeyOf(r, keyCols)) == [] ==> out == [Extend(r, add, None)]
    ensures forall j :: 0 <= j < |Matching(right, keyCols, KeyOf(r, keyCols))| ==>
      out[j] == Extend(r, add, Some(Matching(right, keyCols, KeyOf(r, keyCols))[j]))
  {
    var ms := Matching(right, keyCols, KeyOf(r, keyCols));
    if ms == [] then [Extend(r, add, None)]
    else seq(|ms|, j requires 0 <= j < |ms| => Extend(r, add, Some(ms[j])))
  }

  /**
   * A left merge against every row of `right`: a base row with several
   * matches is repeated once per match, one without is kept with missing
   * values. Base order is kept.
   */
  function JoinAll(base: seq<Row>, keyCols: seq<string>, right: seq<Row>, add: seq<string>): (r: seq<Row>)
    ensures |r| >= |base|
  {
    if base == [] then [] else JoinOne(base[0], keyCols, right, add) + JoinAll(base[1..], keyCols, right, add)
  }

  /** Merging `a + b` is merging `a`, then `b`. */
  lemma {:induction false} JoinAllAppend(a: seq<Row>, b: seq<Row>, keyCols: seq<string>, right: seq<Row>, add: seq<string>)
    ensures JoinAll(a + b, keyCols, right, add) == JoinAll(a, keyCols, right, add) + JoinAll(b, keyCols, right, add)
  {
    if a == [] {
      assert a + b == b;
    } else {
      assert (a + b)[0] == a[0] && (a + b)[1..] == a[1..] + b;
      JoinAllAppend(a[1..], b, keyCols, right, add);
    }
  }

  /** A base row widened by its first match, or by missing values when it has none. */
  function JoinedRow(r: Row, keyCols: seq<string>, right: seq<Row>, add: seq<string>): Row {
    var ms := Matching(right, keyCols, KeyOf(r, keyCols));
    Extend(r, add, if ms == [] then None else Some(ms[0]))
  }

  /** A base row with at most one match turns into exactly one row. */
  lemma JoinOneUnique(r: Row, keyCols: seq<string>, right: seq<Row>, add: seq<string>)
    requires |Matching(right, keyCols, KeyOf(r, keyCols))| <= 1
    ensures JoinOne(r, keyCols, right, add) == [JoinedRow(r, keyCols, right, add)]
  {
  }

  /** Every base row widened by its first match, or by missing values. */
  function JoinedRows(base: seq<Row>, keyCols: seq<string>, right: seq<Row>, add: seq<string>): (r: seq<Row>)
    ensures |r| == |base| && forall i :: 0 <= i < |base| ==> r[i] == JoinedRow(base[i], keyCols, right, add)
  {
    seq(|base|, i requires 0 <= i < |base| => JoinedRow(base[i], keyCols, right, add))
  }

  lemma JoinedRowsCons(base: seq<Row>, keyCols: seq<string>, right: seq<Row>, add: seq<string>)
    requires base != []
    ensures JoinedRows(base, keyCols, right, add) == [JoinedRow(base[0], keyCols, right, add)] + JoinedRows(base[1..], keyCols, right, add)
  {
  }

  /**
   * With at most one right row per key, the merge is `base` row by row, each
   * row widened by its one match, or by missing values when it has none.
   */
  lemma {:induction false} JoinAllUnique(base: seq<Row>, keyCols: seq<string>, right: seq<Row>, add: seq<string>)
    requires forall i :: 0 <= i < |base| ==> |Matching(right, keyCols, KeyOf(base[i], keyCols))| <= 1
    ensures JoinAll(base, keyCols, right, add) == JoinedRows(base, keyCols, right, add)
  {
    if base != [] {
      assert |Matching(right, keyCols, KeyOf(base[0], keyCols))| <= 1;
      assert forall i :: 0 <= i < |base[1..]| ==> base[1..][i] == base[i + 1];
      JoinAllUnique(base[1..], keyCols, right, add);
      JoinOneUnique(base[0], keyCols, right, add);
      JoinedRowsCons(base, keyCols, right, add);
    }
  }

  /** With at most one right row per key, the merge keeps the base row count. */
  lemma {:induction false} JoinAllKeepsCount(base: seq<Row>, keyCols: seq<string>, right: seq<Row>, add: seq<string>)
    requires forall i :: 0 <= i < |base| ==> |Matching(right, keyCols, KeyOf(base[i], keyCols))| <= 1
    ensures |JoinAll(base, keyCols, right, add)| == |base|
  {
    if base != [] {
      assert |Matching(right, keyCols, KeyOf(base[0], keyCols))| <= 1;
      JoinAllKeepsCount(base[1..], keyCols, right, add);
    }
  }

  /** A base row whose key matches two right rows comes out twice. */
  lemma {:induction false} JoinAllRepeats(base: seq<Row>, keyCols: seq<string>, right: seq<Row>, add: seq<string>, i: nat)
    requires i < |base| && |Matching(right, keyCols, KeyOf(base[i], keyCols))| >= 2
    ensures |JoinAll(base, keyCols, right, add)| > |base|
  {
    if i == 0 {
      assert |JoinAll(base[1..], keyCols, right, add)| >= |base| - 1;
    } else {
      JoinAllRepeats(base[1..], keyCols, right, add, i - 1);
    }
  }
}
