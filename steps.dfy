/**
 * The transformation steps. Each step receives the working data of its
 * chain (`current_data`) and yields the next; only `link` and `lookup`
 * also touch the transformer's state, and they are written here as pure
 * functions of that state which the `Transformer` methods then follow.
 */
module Steps {
  import opened Wrappers
  import opened Values
  import opened Ordering
  import opened Grouping
  import opened Schema

  /** A `condition`/`query` string: true, false, or None when the expression raises. */
  type RowPredicate = Row -> Option<bool>

  /** A `formula` string: the value for one row, or None when it raises. */
  type RowFormula = Row -> Option<Value>

  /** One entry of `conditions`; a missing key is None. */
  datatype Condition = Condition(test: Option<RowPredicate>, value: Option<Value>)

  /** `link`'s `aggregation`: absent or empty, or a mapping with an optional `method`. */
  datatype LinkAggregation = NoAggregation | Aggregation(methodName: Option<string>)

  /** The step types with their own parameters; a missing key is None. */
  datatype StepKind =
    | Copy
    | Map(values: Option<map<Value, Value>>)
    | Lookup(vocabulary: Option<string>, sourceLookupColumn: Option<string>,
             targetLookupColumn: Option<string>, defaultValue: Value)
    | Link(linkedTable: Option<string>, linkColumn: Option<string>,
           orderBy: seq<string>, aggregation: LinkAggregation)
    | Aggregate(groupBy: seq<string>, orderBy: seq<string>, aggregationName: Option<string>)
    | NormalizeDate(format: Option<string>)
    | Concatenate(separator: Option<string>)
    | Default(value: Option<Value>)
    | ConditionalMap(conditions: Option<seq<Condition>>, defaultValue: Value)
    | Filter(condition: Option<RowPredicate>)
    | Derive(formula: Option<RowFormula>)
    | GenerateId(methodName: Option<string>)
    | Unsupported(typeName: string)

  /** One transformation step: its type and the shared `source_column`/`source_columns` keys. */
  datatype Step = Step(kind: StepKind, sourceColumn: Option<string>, sourceColumns: Option<seq<string>>)

  /** The data directories a linked or lookup table can come from. */
  datatype Store = Store(source: map<string, Table>, lookups: map<string, Table>, target: map<string, Table>)

  function Required<T>(o: Option<T>, step: string, parameter: string): (r: Outcome<T>)
    ensures r.Ok? <==> o.Some?
    ensures r.Ok? ==> r.value == o.value
    ensures r.Err? ==> r.error == MissingParameter(step, parameter)
  {
    if o.Some? then Ok(o.value) else Err(MissingParameter(step, parameter))
  }

  /** A required key whose value must also be truthy (a missing key, None and "" fail). */
  function RequiredText(o: Option<string>, step: string, parameter: string): (r: Outcome<string>)
    ensures r.Ok? <==> o.Some? && o.value != ""
    ensures r.Ok? ==> r.value == o.value
    ensures r.Err? ==> r.error == MissingParameter(step, parameter)
  {
    if o.Some? && o.value != "" then Ok(o.value) else Err(MissingParameter(step, parameter))
  }

  /** The working data as a data frame; other shapes make the step raise. */
  function FrameOf(w: Working, step: string): (r: Outcome<Frame>)
    ensures r.Ok? <==> w.Rows?
    ensures r.Ok? ==> r.value == w.frame
    ensures r.Err? ==> r.error == WrongInputShape(step)
  {
    if w.Rows? then Ok(w.frame) else Err(WrongInputShape(step))
  }

  /** `current_data[c]` for a data frame. */
  function TakeColumn(w: Working, step: string, c: Option<string>): (r: Outcome<Series>)
    ensures r.Ok? <==> w.Rows? && c.Some? && c.value in w.frame.columns
    ensures r.Ok? ==>
      r.value.name == c && r.value.index == w.frame.index &&
      r.value.values == ColumnValues(w.frame.rows, c.value)
  {
    var f :- FrameOf(w, step);
    var name :- Required(c, step, "source_column");
    if name !in f.columns then Err(ColumnNotFound([name]))
    else Ok(Series(Some(name), f.index, ColumnValues(f.rows, name)))
  }

  // ---------------------------------------------------------------- copy

  /** `copy`: the source column itself. */
  function CopyStep(w: Working, step: Step): (r: Outcome<Working>)
    ensures step.sourceColumn.None? ==> r == Err(MissingParameter("copy", "source_column"))
    ensures r.Ok? <==> w.Rows? && step.sourceColumn.Some? && step.sourceColumn.value in w.frame.columns
    ensures r.Ok? ==>
      r.value.Col? && r.value.series.index == w.frame.index &&
      r.value.series.values == ColumnValues(w.frame.rows, step.sourceColumn.value)
  {
    var c :- Required(step.sourceColumn, "copy", "source_column");
    var s :- TakeColumn(w, "copy", Some(c));
    Ok(Col(s))
  }

  // ----------------------------------------------------------------- map

  /** `Series.map(dict)`: each value through the dictionary, missing when absent. */
  function MapValues(vals: seq<Value>, dict: map<Value, Value>): (r: seq<Value>)
    ensures |r| == |vals|
    ensures forall i :: 0 <= i < |vals| && vals[i] in dict ==> r[i] == dict[vals[i]]
    ensures forall i :: 0 <= i < |vals| && vals[i] !in dict ==> r[i] == Null
  {
    seq(|vals|, i requires 0 <= i < |vals| => if vals[i] in dict then dict[vals[i]] else Null)
  }

  function MapStep(w: Working, step: Step): (r: Outcome<Working>)
    requires step.kind.Map?
    ensures step.kind.values.None? ==> r == Err(MissingParameter("map", "values"))
    ensures r.Ok? ==> w.Rows? && r.value.Col? && r.value.series.index == w.frame.index
  {
    var dict :- Required(step.kind.values, "map", "values");
    var s :- TakeColumn(w, "map", step.sourceColumn);
    Ok(Col(Series(s.name, s.index, MapValues(s.values, dict))))
  }

  /** `map` is element-wise: row i of the result is row i's source value through the dictionary. */
  lemma MapElementwise(w: Working, step: Step, i: nat)
    requires step.kind.Map? && MapStep(w, step).Ok? && i < |w.frame.rows|
    ensures var out := MapStep(w, step).value.series.values;
      |out| == |w.frame.rows| &&
      var v := Get(w.frame.rows[i], step.sourceColumn.value);
      out[i] == if v in step.kind.values.value then step.kind.values.value[v] else Null
  {
  }

  /** A dictionary that maps every source value to itself makes `map` a `copy`. */
  lemma MapIdentityIsCopy(w: Working, step: Step)
    requires step.kind.Map? && step.kind.values.Some?
    requires forall v :: v in step.kind.values.value ==> step.kind.values.value[v] == v
    requires w.Rows? && step.sourceColumn.Some? &&
      forall row :: row in w.frame.rows ==> Get(row, step.sourceColumn.value) in step.kind.values.value
    ensures MapStep(w, step) == CopyStep(w, step)
  {
    var c := step.sourceColumn.value;
    if c in w.frame.columns {
      var vals := ColumnValues(w.frame.rows, c);
      assert MapValues(vals, step.kind.values.value) == vals;
    }
  }

  // -------------------------------------------------------------- lookup

  /** `_load_lookup_table`: the cached table, else the stored one, which then joins the cache. */
  function LoadLookup(store: Store, cache: map<string, Table>, name: string): (r: (Outcome<Table>, map<string, Table>))
    ensures name in cache ==> r == (Ok(cache[name]), cache)
    ensures name !in cache && name in store.lookups ==> r == (Ok(store.lookups[name]), cache[name := store.lookups[name]])
    ensures name !in cache && name !in store.lookups ==> r == (Err(TableNotFound(name)), cache)
  {
    if name in cache then (Ok(cache[name]), cache)
    else if name in store.lookups then (Ok(store.lookups[name]), cache[name := store.lookups[name]])
    else (Err(TableNotFound(name)), cache)
  }

  /** Loading twice reads the store at most once: the second load hits the cache and changes nothing. */
  lemma LoadLookupCaches(store: Store, cache: map<string, Table>, name: string)
    ensures var (t1, c1) := LoadLookup(store, cache, name);
      t1.Ok? ==> name in c1 && LoadLookup(store, c1, name) == (t1, c1)
    ensures var (t1, c1) := LoadLookup(store, cache, name);
      forall other :: other in cache ==> other in c1 && c1[other] == cache[other]
  {
  }

  /**
   * `set_index(source)[target].to_dict()`: every source-column value maps to
   * the target cell of the LAST row holding it.
   */
  function LookupDict(rows: seq<Row>, slc: string, tlc: string): (d: map<Value, Value>)
    ensures forall k :: k in d <==> LastIndexOf(rows, [slc], [k]).Some?
    ensures forall k :: k in d ==> d[k] == Get(rows[LastIndexOf(rows, [slc], [k]).value], tlc)
  {
    if rows == [] then map[]
    else
      var last := rows[|rows| - 1];
      var d := LookupDict(rows[..|rows| - 1], slc, tlc);
      assert KeyOf(last, [slc]) == [Get(last, slc)];
      d[Get(last, slc) := Get(last, tlc)]
  }

  /** The looked-up values, missing ones (and missing results) filled with `default`. */
  function LookupValues(vals: seq<Value>, d: map<Value, Value>, default: Value): (r: seq<Value>)
    ensures |r| == |vals|
    ensures forall i :: 0 <= i < |vals| && vals[i] in d && d[vals[i]] != Null ==> r[i] == d[vals[i]]
    ensures forall i :: 0 <= i < |vals| && (vals[i] !in d || d[vals[i]] == Null) ==> r[i] == default
  {
    seq(|vals|, i requires 0 <= i < |vals| =>
      var m := if vals[i] in d then d[vals[i]] else Null;
      if m == Null then default else m)
  }

  /** `transform_lookup` against the cache, yielding the column and the cache after the load. */
  function LookupStep(store: Store, cache: map<string, Table>, w: Working, step: Step): (r: (Outcome<Working>, map<string, Table>))
    requires step.kind.Lookup?
    ensures step.sourceColumn.None? || step.kind.vocabulary.None? ==> r.1 == cache
    ensures forall other :: other in cache ==> other in r.1 && r.1[other] == cache[other]
    ensures r.0.Ok? ==>
      w.Rows? && r.0.value.Col? && r.0.value.series.index == w.frame.index &&
      |r.0.value.series.values| == |w.frame.rows|
  {
    if step.sourceColumn.None? then (Err(MissingParameter("lookup", "source_column")), cache)
    else if step.kind.vocabulary.None? then (Err(MissingParameter("lookup", "vocabulary")), cache)
    else
      var name := step.kind.vocabulary.value;
      var (t, cache') := LoadLookup(store, cache, name);
      if t.Err? then (Err(t.error), cache')
      else
        var slc, tlc := step.kind.sourceLookupColumn, step.kind.targetLookupColumn;
        if slc.None? || slc.value !in t.value.columns || tlc.None? || tlc.value !in t.value.columns then
          (Err(MissingLookupColumns(name)), cache')
        else
          var d := LookupDict(t.value.rows, slc.value, tlc.value);
          match TakeColumn(w, "lookup", step.sourceColumn)
          case Err(e) => (Err(e), cache')
          case Ok(s) => (Ok(Col(Series(s.name, s.index, LookupValues(s.values, d, step.kind.defaultValue)))), cache')
  }

  /**
   * `lookup` is element-wise: a source value found in the lookup table gets
   * the target value of its last row there, any other value (or a missing
   * result) becomes `default_value`.
   */
  lemma LookupElementwise(store: Store, cache: map<string, Table>, w: Working, step: Step, i: nat)
    requires step.kind.Lookup? && LookupStep(store, cache, w, step).0.Ok? && i < |w.frame.rows|
    ensures var t := LoadLookup(store, cache, step.kind.vocabulary.value).0.value;
      var slc, tlc := step.kind.sourceLookupColumn.value, step.kind.targetLookupColumn.value;
      var v := Get(w.frame.rows[i], step.sourceColumn.value);
      var hit := LastIndexOf(t.rows, [slc], [v]);
      var out := LookupStep(store, cache, w, step).0.value.series.values[i];
      (hit.Some? && Get(t.rows[hit.value], tlc) != Null ==> out == Get(t.rows[hit.value], tlc)) &&
      (hit.None? || Get(t.rows[hit.value], tlc) == Null ==> out == step.kind.defaultValue)
  {
  }

  /** A lookup table lacking either lookup column raises, whatever the data. */
  lemma LookupNeedsBothColumns(store: Store, cache: map<string, Table>, w: Working, step: Step)
    requires step.kind.Lookup? && step.sourceColumn.Some? && step.kind.vocabulary.Some?
    requires LoadLookup(store, cache, step.kind.vocabulary.value).0.Ok?
    requires var t := LoadLookup(store, cache, step.kind.vocabulary.value).0.value;
      step.kind.sourceLookupColumn.None? || step.kind.sourceLookupColumn.value !in t.columns ||
      step.kind.targetLookupColumn.None? || step.kind.targetLookupColumn.value !in t.columns
    ensures LookupStep(store, cache, w, step).0 == Err(MissingLookupColumns(step.kind.vocabulary.value))
  {
  }

  /**
   * A vocabulary already in the cache is used as it is: the store is not
   * read, the cache is unchanged, and the result is the frame's source
   * column looked up in that table, with the frame's labels.
   */
  lemma LookupCacheHit(store: Store, cache: map<string, Table>, f: Frame, step: Step)
    requires step.kind.Lookup? && step.sourceColumn.Some? && step.kind.vocabulary.Some?
    requires step.kind.vocabulary.value in cache
    requires var t := cache[step.kind.vocabulary.value];
      step.kind.sourceLookupColumn.Some? && step.kind.sourceLookupColumn.value in t.columns &&
      step.kind.targetLookupColumn.Some? && step.kind.targetLookupColumn.value in t.columns
    requires step.sourceColumn.value in f.columns
    ensures var t := cache[step.kind.vocabulary.value];
      var d := LookupDict(t.rows, step.kind.sourceLookupColumn.value, step.kind.targetLookupColumn.value);
      var vals := ColumnValues(f.rows, step.sourceColumn.value);
      LookupStep(store, cache, Rows(f), step) ==
        (Ok(Col(Series(step.sourceColumn, f.index, LookupValues(vals, d, step.kind.defaultValue)))), cache)
  {
  }

  // ------------------------------------------------------ normalize_date

  function NormalizeDateStep(ext: Externals, w: Working, step: Step): (r: Outcome<Working>)
    requires step.kind.NormalizeDate?
    ensures r.Ok? <==> w.Rows? && step.sourceColumn.Some? && step.sourceColumn.value in w.frame.columns
    ensures r.Ok? ==>
      r.value.Col? && r.value.series.index == w.frame.index &&
      |r.value.series.values| == |w.frame.rows|
    ensures r.Ok? ==> forall i :: 0 <= i < |w.frame.rows| ==>
      var v := Get(w.frame.rows[i], step.sourceColumn.value);
      r.value.series.values[i] ==
        if ext.parseTime(v).Some? then Text(ext.formatTime(ext.parseTime(v).value, step.kind.format.GetOr("%Y-%m-%d")))
        else Null
  {
    var fmt := step.kind.format.GetOr("%Y-%m-%d");
    var s :- TakeColumn(w, "normalize_date", step.sourceColumn);
    Ok(Col(Series(s.name, s.index, seq(|s.values|, i requires 0 <= i < |s.values| =>
      match ext.parseTime(s.values[i])
      case Some(t) => Text(ext.formatTime(t, fmt))
      case None => Null))))
  }

  // --------------------------------------------------------- concatenate

  /** The row's cells in `cols`, each as text. */
  function Cells(ext: Externals, r: Row, cols: seq<string>): (r': seq<string>)
    ensures |r'| == |cols|
    ensures forall j :: 0 <= j < |cols| ==> r'[j] == Stringify(ext, Get(r, cols[j]))
  {
    seq(|cols|, j requires 0 <= j < |cols| => Stringify(ext, Get(r, cols[j])))
  }

  function ConcatenateStep(ext: Externals, w: Working, step: Step): (r: Outcome<Working>)
    requires step.kind.Concatenate?
    ensures step.sourceColumns.None? || step.sourceColumns == Some([]) ==>
      r == Err(MissingParameter("concatenate", "source_columns"))
    ensures r.Ok? <==>
      w.Rows? && step.sourceColumns.Some? && step.sourceColumns.value != [] &&
      forall c :: c in step.sourceColumns.value ==> c in w.frame.columns
    ensures r.Ok? ==>
      r.value.Col? && r.value.series.index == w.frame.index &&
      |r.value.series.values| == |w.frame.rows|
    ensures r.Ok? ==> forall i :: 0 <= i < |w.frame.rows| ==>
      r.value.series.values[i] ==
        Text(Join(Cells(ext, w.frame.rows[i], step.sourceColumns.value), step.kind.separator.GetOr("-")))
  {
    if step.sourceColumns.None? || step.sourceColumns.value == [] then
      Err(MissingParameter("concatenate", "source_columns"))
    else
      var cols := step.sourceColumns.value;
      var sep := step.kind.separator.GetOr("-");
      var f :- FrameOf(w, "concatenate");
      var missing := Absent(cols, f.columns);
      if missing != [] then
        assert missing[0] in missing;
        Err(ColumnNotFound(missing))
      else Ok(Col(Series(None, f.index, seq(|f.rows|, i requires 0 <= i < |f.rows| =>
        Text(Join(Cells(ext, f.rows[i], cols), sep))))))
  }

  // ------------------------------------------------------------- default

  /** `pd.Series(value, index=self.data.index)`: the value on every base row. */
  function DefaultStep(dataRows: nat, step: Step): (r: Outcome<Working>)
    requires step.kind.Default?
    ensures r.Ok? <==> step.kind.value.Some?
    ensures r.Ok? ==> r.value == Col(Series(None, Range(dataRows), Repeat(step.kind.value.value, dataRows)))
  {
    var v :- Required(step.kind.value, "default", "value");
    Ok(Col(Series(None, Range(dataRows), Repeat(v, dataRows))))
  }

  // ----------------------------------------------------- conditional_map

  /** The position of label `l` in an index. */
  function IndexOf(index: seq<int>, l: int): (r: Option<nat>)
    ensures r.Some? ==> r.value < |index| && index[r.value] == l
    ensures r.None? ==> l !in index
  {
    if index == [] then None
    else if index[0] == l then Some(0)
    else match IndexOf(index[1..], l)
      case None => None
      case Some(p) => Some(p + 1)
  }

  /**
   * `eval` of an expression on every row of a frame: the row values, or
   * None when the expression raises on some row. A `condition` yields a
   * mask and a `formula` the derived values.
   */
  function EvalRows<T>(rows: seq<Row>, e: Row -> Option<T>): (r: Option<seq<T>>)
    ensures r.Some? <==> forall i :: 0 <= i < |rows| ==> e(rows[i]).Some?
    ensures r.Some? ==> |r.value| == |rows| && forall i :: 0 <= i < |rows| ==> r.value[i] == e(rows[i]).value
  {
    if forall i :: 0 <= i < |rows| ==> e(rows[i]).Some? then
      Some(seq(|rows|, i requires 0 <= i < |rows| => e(rows[i]).value))
    else None
  }

  /** The mask read at the result's labels 0..n-1; None when a label is missing from the mask. */
  function AlignMask(index: seq<int>, mask: seq<bool>, n: nat): (r: Option<seq<bool>>)
    requires |index| == |mask|
    ensures r.Some? <==> forall l :: 0 <= l < n ==> IndexOf(index, l).Some?
    ensures r.Some? ==> |r.value| == n && forall l :: 0 <= l < n ==> r.value[l] == mask[IndexOf(index, l).value]
  {
    if exists l :: 0 <= l < n && IndexOf(index, l).None? then
      var l :| 0 <= l < n && IndexOf(index, l).None?;
      assert !IndexOf(index, l).Some?;
      None
    else Some(seq(n, l requires 0 <= l < n => mask[IndexOf(index, l).value]))
  }

  /** `result_column[mask] = value` for one condition. */
  function ApplyCondition(col: seq<Value>, w: Working, c: Condition): (r: Outcome<seq<Value>>)
    ensures r.Ok? ==> |r.value| == |col|
  {
    var test :- Required(c.test, "conditional_map", "condition");
    var value :- Required(c.value, "conditional_map", "value");
    var f :- FrameOf(w, "conditional_map");
    if |f.index| != |f.rows| then Err(UnalignableMask)
    else match EvalRows(f.rows, test)
      case None => Err(ExpressionFailed)
      case Some(mask) =>
        match AlignMask(f.index, mask, |col|)
        case None => Err(UnalignableMask)
        case Some(m) =>
          match SetInt64(value)
          case None => Err(NotInteger(value))
          case Some(v) => Ok(seq(|col|, i requires 0 <= i < |col| => if m[i] then v else col[i]))
  }

  /** The conditions in list order, each overwriting the rows it selects. */
  function CondFold(col: seq<Value>, w: Working, conds: seq<Condition>): (r: Outcome<seq<Value>>)
    ensures r.Ok? ==> |r.value| == |col|
    decreases conds
  {
    if conds == [] then Ok(col)
    else
      var next :- ApplyCondition(col, w, conds[0]);
      CondFold(next, w, conds[1..])
  }

  /** The Int64 column every row starts from: `default`, or missing. */
  function InitialColumn(ext: Externals, default: Value, n: nat): (r: Outcome<seq<Value>>)
    ensures r.Ok? <==> ToInt64(ext, default).Some?
    ensures r.Ok? ==> r.value == Repeat(ToInt64(ext, default).value, n)
  {
    match ToInt64(ext, default)
    case None => Err(NotInteger(default))
    case Some(v) => Ok(Repeat(v, n))
  }

  /** `transform_conditional_map` on a base table of `dataRows` rows. */
  function ConditionalMapSpec(ext: Externals, dataRows: nat, w: Working, step: Step): (r: Outcome<Working>)
    requires step.kind.ConditionalMap?
    ensures step.kind.conditions.None? ==> r == Err(MissingParameter("conditional_map", "conditions"))
    ensures r.Ok? ==>
      r.value.Col? && r.value.series.index == Range(dataRows) &&
      |r.value.series.values| == dataRows
    ensures r.Ok? ==>
      step.kind.conditions.Some? && InitialColumn(ext, step.kind.defaultValue, dataRows).Ok? &&
      CondFold(InitialColumn(ext, step.kind.defaultValue, dataRows).value, w, step.kind.conditions.value) == Ok(r.value.series.values)
  {
    var conds :- Required(step.kind.conditions, "conditional_map", "conditions");
    var init :- InitialColumn(ext, step.kind.defaultValue, dataRows);
    var out :- CondFold(init, w, conds);
    Ok(Col(Series(None, Range(dataRows), out)))
  }

  /** Condition `c` selects the result row with label `l`. */
  predicate Hits(w: Working, c: Condition, l: int) {
    w.Rows? && c.test.Some? && IndexOf(w.frame.index, l).Some? &&
    IndexOf(w.frame.index, l).value < |w.frame.rows| &&
    c.test.value(w.frame.rows[IndexOf(w.frame.index, l).value]) == Some(true)
  }

  /** One condition overwrites exactly the rows it selects. */
  lemma ApplyConditionCell(col: seq<Value>, w: Working, c: Condition, i: nat)
    requires ApplyCondition(col, w, c).Ok? && i < |col|
    ensures c.value.Some? && SetInt64(c.value.value).Some?
    ensures ApplyCondition(col, w, c).value[i] == if Hits(w, c, i) then SetInt64(c.value.value).value else col[i]
  {
    var f := w.frame;
    var mask := EvalRows(f.rows, c.test.value).value;
    var m := AlignMask(f.index, mask, |col|).value;
    assert m[i] == mask[IndexOf(f.index, i).value];
  }

  /** A row no condition selects keeps its starting value. */
  lemma {:induction false} CondFoldUnmatched(col: seq<Value>, w: Working, conds: seq<Condition>, i: nat)
    requires CondFold(col, w, conds).Ok? && i < |col|
    requires forall k :: 0 <= k < |conds| ==> !Hits(w, conds[k], i)
    ensures CondFold(col, w, conds).value[i] == col[i]
    decreases conds
  {
    if conds != [] {
      var next := ApplyCondition(col, w, conds[0]).value;
      ApplyConditionCell(col, w, conds[0], i);
      assert forall k :: 0 <= k < |conds[1..]| ==> conds[1..][k] == conds[k + 1];
      CondFoldUnmatched(next, w, conds[1..], i);
    }
  }

  /** A row selected by condition `k` and by no later one gets condition `k`'s value: the last match wins. */
  lemma {:induction false} CondFoldLastWins(col: seq<Value>, w: Working, conds: seq<Condition>, i: nat, k: nat)
    requires CondFold(col, w, conds).Ok? && i < |col|
    requires k < |conds| && Hits(w, conds[k], i)
    requires forall j :: k < j < |conds| ==> !Hits(w, conds[j], i)
    ensures conds[k].value.Some? && SetInt64(conds[k].value.value).Some?
    ensures CondFold(col, w, conds).value[i] == SetInt64(conds[k].value.value).value
    decreases conds
  {
    var next := ApplyCondition(col, w, conds[0]).value;
    ApplyConditionCell(col, w, conds[0], i);
    assert forall j :: 0 <= j < |conds[1..]| ==> conds[1..][j] == conds[j + 1];
    if k == 0 {
      CondFoldUnmatched(next, w, conds[1..], i);
    } else {
      CondFoldLastWins(next, w, conds[1..], i, k - 1);
    }
  }

  /**
   * Row i of `conditional_map`'s column: the value of the last condition
   * selecting it, or the default when none does.
   */
  lemma ConditionalMapRow(ext: Externals, dataRows: nat, w: Working, step: Step, i: nat)
    requires step.kind.ConditionalMap? && ConditionalMapSpec(ext, dataRows, w, step).Ok? && i < dataRows
    ensures var conds := step.kind.conditions.value;
      var out := ConditionalMapSpec(ext, dataRows, w, step).value.series.values;
      ((forall k :: 0 <= k < |conds| ==> !Hits(w, conds[k], i)) ==> out[i] == ToInt64(ext, step.kind.defaultValue).value) &&
      (forall k :: 0 <= k < |conds| && Hits(w, conds[k], i) && (forall j :: k < j < |conds| ==> !Hits(w, conds[j], i)) ==>
        conds[k].value.Some? && SetInt64(conds[k].value.value).Some? && out[i] == SetInt64(conds[k].value.value).value)
  {
    var conds := step.kind.conditions.value;
    var init := InitialColumn(ext, step.kind.defaultValue, dataRows).value;
    if forall k :: 0 <= k < |conds| ==> !Hits(w, conds[k], i) {
      CondFoldUnmatched(init, w, conds, i);
    }
    forall k | 0 <= k < |conds| && Hits(w, conds[k], i) && (forall j :: k < j < |conds| ==> !Hits(w, conds[j], i))
      ensures conds[k].value.Some? && SetInt64(conds[k].value.value).Some?
      ensures ConditionalMapSpec(ext, dataRows, w, step).value.series.values[i] == SetInt64(conds[k].value.value).value
    {
      CondFoldLastWins(init, w, conds, i, k);
    }
  }

  // -------------------------------------------------------------- filter

  /** `Series.to_frame()`: one column named after the series ("0" when unnamed). */
  function ToFrame(s: Series): (f: Frame)
    ensures f.index == s.index && |f.rows| == |s.values| && |f.columns| == 1
    ensures forall i :: 0 <= i < |s.values| ==> Get(f.rows[i], f.columns[0]) == s.values[i]
  {
    var name := s.name.GetOr("0");
    Frame(s.index, [name], seq(|s.values|, i requires 0 <= i < |s.values| => map[name := s.values[i]]))
  }

  /** The positions from `k` on of the rows the predicate accepts, in increasing order. */
  function AcceptedFrom(rows: seq<Row>, p: RowPredicate, k: nat): (pos: seq<nat>)
    requires k <= |rows|
    ensures forall j :: 0 <= j < |pos| ==> k <= pos[j] < |rows|
    decreases |rows| - k
  {
    if k == |rows| then []
    else (if p(rows[k]) == Some(true) then [k] else []) + AcceptedFrom(rows, p, k + 1)
  }

  /** `AcceptedFrom` lists positions in strictly increasing order. */
  lemma {:induction false} AcceptedIncreasing(rows: seq<Row>, p: RowPredicate, k: nat)
    requires k <= |rows|
    ensures forall j, j' :: 0 <= j < j' < |AcceptedFrom(rows, p, k)| ==> AcceptedFrom(rows, p, k)[j] < AcceptedFrom(rows, p, k)[j']
    decreases |rows| - k
  {
    if k < |rows| {
      AcceptedIncreasing(rows, p, k + 1);
      var pos, rest := AcceptedFrom(rows, p, k), AcceptedFrom(rows, p, k + 1);
      if p(rows[k]) == Some(true) {
        assert pos == [k] + rest;
        forall j, j' | 0 <= j < j' < |pos|
          ensures pos[j] < pos[j']
        {
          assert pos[j'] == rest[j' - 1] && k + 1 <= rest[j' - 1];
          if j > 0 {
            assert pos[j] == rest[j - 1];
          } else {
            assert pos[j] == k;
          }
        }
      }
    }
  }

  /** `AcceptedFrom` lists exactly the positions from `k` on of the rows the predicate accepts. */
  lemma {:induction false} AcceptedExactly(rows: seq<Row>, p: RowPredicate, k: nat)
    requires k <= |rows|
    ensures forall i :: k <= i < |rows| ==> (p(rows[i]) == Some(true) <==> i in AcceptedFrom(rows, p, k))
    decreases |rows| - k
  {
    if k < |rows| {
      AcceptedExactly(rows, p, k + 1);
    }
  }

  /** `query`: the rows for which the predicate holds, with their labels; None when it raises. */
  function KeepRows(index: seq<int>, rows: seq<Row>, p: RowPredicate): (r: Option<(seq<int>, seq<Row>)>)
    requires |index| == |rows|
    ensures r.Some? <==> forall i :: 0 <= i < |rows| ==> p(rows[i]).Some?
    ensures r.Some? ==> |r.value.0| == |r.value.1| <= |rows|
    ensures r.Some? ==> forall j :: 0 <= j < |r.value.1| ==> p(r.value.1[j]) == Some(true)
    ensures r.Some? ==> Subsequence(r.value.1, rows) && Subsequence(r.value.0, index)
    ensures r.Some? ==> (|r.value.1| == |rows| <==> forall i :: 0 <= i < |rows| ==> p(rows[i]) == Some(true))
  {
    if rows == [] then Some(([], []))
    else match p(rows[0])
      case None => None
      case Some(keep) =>
        match KeepRows(index[1..], rows[1..], p)
        case None => None
        case Some(rest) =>
          if keep then
            assert ([index[0]] + rest.0)[1..] == rest.0;
            assert ([rows[0]] + rest.1)[1..] == rest.1;
            Some(([index[0]] + rest.0, [rows[0]] + rest.1))
          else
            assert |rest.1| < |rows|;
            Some(rest)
  }

  /**
   * `query` keeps exactly the accepted rows: the j-th row kept from
   * position `k` on, and its label, are those at the j-th accepted position.
   */
  lemma {:induction false} KeepRowsSelects(index: seq<int>, rows: seq<Row>, p: RowPredicate, k: nat)
    requires |index| == |rows| && k <= |rows| && KeepRows(index[k..], rows[k..], p).Some?
    ensures var kept := KeepRows(index[k..], rows[k..], p).value; var pos := AcceptedFrom(rows, p, k);
      |kept.0| == |pos| && |kept.1| == |pos| &&
      forall j :: 0 <= j < |pos| ==> kept.0[j] == index[pos[j]] && kept.1[j] == rows[pos[j]]
    decreases |rows| - k
  {
    if k < |rows| {
      assert index[k..][1..] == index[k + 1..] && rows[k..][1..] == rows[k + 1..];
      KeepRowsSelects(index, rows, p, k + 1);
      var kept, tail := KeepRows(index[k..], rows[k..], p).value, KeepRows(index[k + 1..], rows[k + 1..], p).value;
      var pos, rest := AcceptedFrom(rows, p, k), AcceptedFrom(rows, p, k + 1);
      if p(rows[k]) == Some(true) {
        ConsSelection(kept.0, tail.0, index, pos, rest, k);
        ConsSelection(kept.1, tail.1, rows, pos, rest, k);
      } else {
        assert kept == tail && pos == rest;
      }
    }
  }

  /** A selection at `rest` with `xs[k]` put in front is the selection at `[k] + rest`. */
  lemma ConsSelection<T>(kept: seq<T>, tail: seq<T>, xs: seq<T>, pos: seq<nat>, rest: seq<nat>, k: nat)
    requires k < |xs| && kept == [xs[k]] + tail && pos == [k] + rest && |tail| == |rest|
    requires forall j :: 0 <= j < |rest| ==> rest[j] < |xs| && tail[j] == xs[rest[j]]
    ensures |kept| == |pos| && forall j :: 0 <= j < |pos| ==> pos[j] < |xs| && kept[j] == xs[pos[j]]
  {
    forall j | 1 <= j < |pos|
      ensures pos[j] < |xs| && kept[j] == xs[pos[j]]
    {
      assert kept[j] == tail[j - 1] && pos[j] == rest[j - 1];
    }
  }

  function FilterStep(w: Working, step: Step): (r: Outcome<Working>)
    requires step.kind.Filter?
    ensures step.kind.condition.None? ==> r == Err(MissingParameter("filter", "condition"))
    ensures w.NoData? && step.kind.condition.Some? ==> r == Err(WrongInputShape("filter"))
    ensures r.Ok? ==> r.value.Rows?
  {
    var p :- Required(step.kind.condition, "filter", "condition");
    var f :- match w
      case NoData => Err(WrongInputShape("filter"))
      case Col(s) => Ok(ToFrame(s))
      case Rows(f) => Ok(f);
    if |f.index| != |f.rows| then Err(WrongInputShape("filter"))
    else match KeepRows(f.index, f.rows, p)
      case None => Err(ExpressionFailed)
      case Some(kept) => Ok(Rows(Frame(kept.0, f.columns, kept.1)))
  }

  /**
   * `filter` keeps exactly the rows the condition accepts, in order, each
   * with its own label, and the columns unchanged.
   */
  lemma FilterKeepsMatchingRows(f: Frame, step: Step)
    requires step.kind.Filter? && FilterStep(Rows(f), step).Ok?
    ensures var g := FilterStep(Rows(f), step).value.frame;
      g.columns == f.columns && |g.rows| <= |f.rows| && Subsequence(g.rows, f.rows) &&
      (forall j :: 0 <= j < |g.rows| ==> step.kind.condition.value(g.rows[j]) == Some(true)) &&
      (|g.rows| == |f.rows| <==> forall i :: 0 <= i < |f.rows| ==> step.kind.condition.value(f.rows[i]) == Some(true))
    ensures |f.index| == |f.rows|
    ensures var g := FilterStep(Rows(f), step).value.frame; var p := step.kind.condition.value;
      var pos := AcceptedFrom(f.rows, p, 0);
      (forall j, j' :: 0 <= j < j' < |pos| ==> pos[j] < pos[j']) &&
      (forall i :: 0 <= i < |f.rows| ==> (p(f.rows[i]) == Some(true) <==> i in pos)) &&
      |g.index| == |pos| && |g.rows| == |pos| &&
      forall j :: 0 <= j < |pos| ==> g.index[j] == f.index[pos[j]] && g.rows[j] == f.rows[pos[j]]
  {
    var p := step.kind.condition.value;
    assert f.index[0..] == f.index && f.rows[0..] == f.rows;
    KeepRowsSelects(f.index, f.rows, p, 0);
    AcceptedIncreasing(f.rows, p, 0);
    AcceptedExactly(f.rows, p, 0);
  }

  /**
   * `filter` on a series filters its `to_frame()`: the kept values are the
   * accepted ones, in order, each with its own label.
   */
  lemma FilterKeepsMatchingValues(s: Series, step: Step)
    requires step.kind.Filter? && FilterStep(Col(s), step).Ok?
    ensures FilterStep(Col(s), step) == FilterStep(Rows(ToFrame(s)), step)
    ensures var g := FilterStep(Col(s), step).value.frame; var p := step.kind.condition.value;
      var pos := AcceptedFrom(ToFrame(s).rows, p, 0);
      g.columns == ToFrame(s).columns &&
      (forall j, j' :: 0 <= j < j' < |pos| ==> pos[j] < pos[j']) &&
      (forall i :: 0 <= i < |s.values| ==> (p(ToFrame(s).rows[i]) == Some(true) <==> i in pos)) &&
      |g.index| == |pos| && |g.rows| == |pos| &&
      forall j :: 0 <= j < |pos| ==> pos[j] < |s.values| && g.index[j] == s.index[pos[j]] && Get(g.rows[j], g.columns[0]) == s.values[pos[j]]
  {
    FilterKeepsMatchingRows(ToFrame(s), step);
  }

  // -------------------------------------------------------------- derive

  /** A series value seen by `pd.eval` as the variable `number`. */
  function NumberRow(v: Value): Row {
    map["number" := v]
  }

  /**
   * `derive`: on a data frame the formula sees each row; on a series it sees
   * each value as `number`. Labels are kept.
   */
  function DeriveStep(w: Working, step: Step): (r: Outcome<Working>)
    requires step.kind.Derive?
    ensures r.Ok? ==> r.value.Col? && !w.NoData? && step.kind.formula.Some?
    ensures r.Ok? && w.Rows? ==>
      r.value.series.index == w.frame.index && |r.value.series.values| == |w.frame.rows| &&
      forall i :: 0 <= i < |w.frame.rows| ==>
        Some(r.value.series.values[i]) == step.kind.formula.value(w.frame.rows[i])
    ensures r.Ok? && w.Col? ==>
      r.value.series.index == w.series.index && |r.value.series.values| == |w.series.values| &&
      forall i :: 0 <= i < |w.series.values| ==>
        Some(r.value.series.values[i]) == step.kind.formula.value(NumberRow(w.series.values[i]))
  {
    var e :- Required(step.kind.formula, "derive", "formula");
    match w
    case NoData => Err(WrongInputShape("derive"))
    case Rows(f) =>
      (match EvalRows(f.rows, e)
       case None => Err(ExpressionFailed)
       case Some(vs) => Ok(Col(Series(None, f.index, vs))))
    case Col(s) =>
      var rows := seq(|s.values|, i requires 0 <= i < |s.values| => NumberRow(s.values[i]));
      match EvalRows(rows, e)
      case None => Err(ExpressionFailed)
      case Some(vs) => Ok(Col(Series(s.name, s.index, vs)))
  }


  // --------------------------------------------------------- generate_id

  /** `generate_id` yields the id column and the number of uuid draws it used. */
  datatype IdOutcome = IdOutcome(result: Outcome<Working>, used: nat)

  /** The labels and row count `generate_id` works over: the working data, or the base table when there is none. */
  function IdTarget(data: Table, w: Working): (r: (seq<int>, nat))
    ensures w.NoData? ==> r == (Range(|data.rows|), |data.rows|)
  {
    match w
    case NoData => (Range(|data.rows|), |data.rows|)
    case Rows(f) => (f.index, |f.rows|)
    case Col(s) => (s.index, |s.values|)
  }

  /** The 128 bits a uuid keeps of the session's k-th draw. */
  function Draw128(ext: Externals, k: nat): (b: nat)
    ensures b < UuidSpace
  {
    ext.uuid4(k) % UuidSpace
  }

  /** `str(uuid.uuid4())` per row: row k uses the 128 bits of draw `draws + k`. */
  function UuidIds(ext: Externals, draws: nat, n: nat): (r: seq<Value>)
    ensures |r| == n
    ensures forall k :: 0 <= k < n ==> r[k].Text? && |r[k].s| == 36 && r[k].s[8] == '-' && r[k].s[23] == '-'
  {
    var r := seq(n, k requires 0 <= k < n => Text(UuidText(Draw128(ext, draws + k))));
    assert forall k :: 0 <= k < n ==> r[k] == Text(UuidText(Draw128(ext, draws + k)));
    r
  }

  /** Rows whose draws differ get different uuids. */
  lemma UuidIdsDistinct(ext: Externals, draws: nat, n: nat, i: nat, j: nat)
    requires i < j < n
    requires Draw128(ext, draws + i) != Draw128(ext, draws + j)
    ensures UuidIds(ext, draws, n)[i] != UuidIds(ext, draws, n)[j]
  {
    UuidTextInjective(Draw128(ext, draws + i), Draw128(ext, draws + j));
  }

  /** 1..n. */
  function Counting(n: nat): (r: seq<Value>)
    ensures |r| == n
    ensures forall k :: 0 <= k < n ==> r[k] == Int(k + 1)
  {
    seq(n, k requires 0 <= k < n => Int(k + 1))
  }

  /** The SHA-256 hex digest of each row's `c` cell as text. */
  function HashIds(ext: Externals, rows: seq<Row>, c: string): (r: seq<Value>)
    ensures |r| == |rows|
    ensures forall i :: 0 <= i < |rows| ==> r[i].Text? && |r[i].s| == 64
    ensures forall i, j ::
      (0 <= i < |rows| && 0 <= j < |rows| && Stringify(ext, Get(rows[i], c)) == Stringify(ext, Get(rows[j], c)))
      ==> r[i] == r[j]
  {
    seq(|rows|, i requires 0 <= i < |rows| => Text(HexDigest(ext, Stringify(ext, Get(rows[i], c)))))
  }

  /** `transform_generate_id`; `draws` uuids were drawn before this step. */
  function GenerateIdStep(ext: Externals, data: Table, draws: nat, w: Working, step: Step): (r: IdOutcome)
    requires step.kind.GenerateId?
    ensures r.used == if step.kind.methodName.GetOr("uuid") == "uuid" then IdTarget(data, w).1 else 0
    ensures r.result.Ok? ==> r.result.value.Col?
  {
    var m := step.kind.methodName.GetOr("uuid");
    var (index, n) := IdTarget(data, w);
    if m == "uuid" then IdOutcome(Ok(Col(Series(None, index, UuidIds(ext, draws, n)))), n)
    else if m == "incremental" then IdOutcome(Ok(Col(Series(None, index, Counting(n)))), 0)
    else if m == "hash" then
      if step.sourceColumn.None? || step.sourceColumn.value == "" then
        IdOutcome(Err(MissingParameter("generate_id", "source_column")), 0)
      else
        var c := step.sourceColumn.value;
        match w
        case Col(_) => IdOutcome(Err(WrongInputShape("generate_id")), 0)
        case _ =>
          var f := if w.Rows? then w.frame else AsFrame(data);
          if c !in f.columns then IdOutcome(Err(ColumnNotFound([c])), 0)
          else IdOutcome(Ok(Col(Series(Some(c), f.index, HashIds(ext, f.rows, c)))), 0)
    else IdOutcome(Err(UnknownIdMethod(m)), 0)
  }

  /** `incremental` numbers the rows 1..N in row order and draws nothing. */
  lemma IncrementalNumbersRows(ext: Externals, data: Table, draws: nat, w: Working, step: Step)
    requires step.kind == GenerateId(Some("incremental"))
    ensures var r := GenerateIdStep(ext, data, draws, w, step);
      r.result.Ok? && r.used == 0 && r.result.value.series.index == IdTarget(data, w).0 &&
      |r.result.value.series.values| == IdTarget(data, w).1 &&
      forall k :: 0 <= k < IdTarget(data, w).1 ==> r.result.value.series.values[k] == Int(k + 1)
  {
  }

  /** `uuid`, also the default, gives every row a 36-character id and uses one draw per row. */
  lemma UuidPerRow(ext: Externals, data: Table, draws: nat, w: Working, step: Step)
    requires step.kind.GenerateId? && step.kind.methodName.GetOr("uuid") == "uuid"
    ensures var r := GenerateIdStep(ext, data, draws, w, step);
      r.result.Ok? && r.used == IdTarget(data, w).1 &&
      r.result.value.series.values == UuidIds(ext, draws, IdTarget(data, w).1)
  {
  }

  /** A hash id depends only on the source value's text: equal texts, equal ids. */
  lemma HashIsDeterministic(ext: Externals, data: Table, draws: nat, f: Frame, step: Step, i: nat, j: nat)
    requires step.kind == GenerateId(Some("hash"))
    requires step.sourceColumn.Some? && step.sourceColumn.value != "" && step.sourceColumn.value in f.columns
    requires i < |f.rows| && j < |f.rows|
    requires Stringify(ext, Get(f.rows[i], step.sourceColumn.value)) == Stringify(ext, Get(f.rows[j], step.sourceColumn.value))
    ensures var r := GenerateIdStep(ext, data, draws, Rows(f), step);
      r.result.Ok? && |r.result.value.series.values| == |f.rows| &&
      r.result.value.series.values[i] == r.result.value.series.values[j] &&
      r.result.value.series.values[i] == Text(HexDigest(ext, Stringify(ext, Get(f.rows[i], step.sourceColumn.value))))
  {
  }

  /** `hash` raises without a source column or with an absent one; an unknown method raises. */
  lemma IdErrors(ext: Externals, data: Table, draws: nat, f: Frame, step: Step)
    requires step.kind.GenerateId?
    ensures step.kind.methodName == Some("hash") && (step.sourceColumn.None? || step.sourceColumn == Some("")) ==>
      GenerateIdStep(ext, data, draws, Rows(f), step).result == Err(MissingParameter("generate_id", "source_column"))
    ensures (step.kind.methodName == Some("hash") && step.sourceColumn.Some? && step.sourceColumn.value != "" &&
             step.sourceColumn.value !in f.columns) ==>
      GenerateIdStep(ext, data, draws, Rows(f), step).result == Err(ColumnNotFound([step.sourceColumn.value]))
    ensures step.kind.methodName.Some? && step.kind.methodName.value !in {"uuid", "incremental", "hash"} ==>
      GenerateIdStep(ext, data, draws, Rows(f), step).result == Err(UnknownIdMethod(step.kind.methodName.value))
  {
  }

  // ---------------------------------------------------- link / aggregate

  /** The `data/<directory>/<name>` table, searched in `source`, `lookups`, `target` order. */
  function FindLinked(store: Store, name: string): (r: Option<Table>)
    ensures name in store.source ==> r == Some(store.source[name])
    ensures name !in store.source && name in store.lookups ==> r == Some(store.lookups[name])
    ensures name !in store.source && name !in store.lookups && name in store.target ==> r == Some(store.target[name])
    ensures r.None? <==> name !in store.source && name !in store.lookups && name !in store.target
  {
    if name in store.source then Some(store.source[name])
    else if name in store.lookups then Some(store.lookups[name])
    else if name in store.target then Some(store.target[name])
    else None
  }

  /** `cols` without the names in `drop`, order kept. */
  function Without(cols: seq<string>, drop: seq<string>): (r: seq<string>)
    ensures forall c :: c in r <==> c in cols && c !in drop
  {
    Absent(cols, drop)
  }

  /** The rows as `sort_values(order_by)` leaves them (unchanged without an order). */
  function SortedFor(rows: seq<Row>, orderBy: seq<string>): (r: seq<Row>)
    ensures multiset(r) == multiset(rows)
    ensures orderBy != [] ==> SortedBy(r, orderBy)
  {
    if orderBy == [] then rows
    else
      SortRowsPermutes(rows, orderBy);
      SortRowsSorted(rows, orderBy);
      SortRows(rows, orderBy)
  }

  /** The values of column `c` among the rows of group `k`. */
  function GroupValues(rows: seq<Row>, keyCols: seq<string>, k: seq<Value>, c: string): seq<Value> {
    ColumnValues(Matching(rows, keyCols, k), c)
  }

  /** The first of `cols` for which some group has no non-missing value. */
  function FirstModeless(rows: seq<Row>, keyCols: seq<string>, cols: seq<string>): (r: Option<string>)
    ensures r.Some? ==> r.value in cols
    ensures r.None? <==> forall c, k :: c in cols && k in KeysOf(rows, keyCols) && Groupable(k) ==>
      ModeOf(GroupValues(rows, keyCols, k, c)).Some?
  {
    if cols == [] then None
    else if exists k :: k in KeysOf(rows, keyCols) && Groupable(k) && ModeOf(GroupValues(rows, keyCols, k, cols[0])).None? then
      Some(cols[0])
    else FirstModeless(rows, keyCols, cols[1..])
  }

  /** `agg(lambda x: x.value_counts().idxmax())` per group and column; a group with no value in a column raises. */
  function ModePicks(rows: seq<Row>, keyCols: seq<string>, cols: seq<string>): (r: Outcome<map<seq<Value>, Row>>)
    ensures r.Ok? ==> forall k :: k in r.value <==> k in KeysOf(rows, keyCols) && Groupable(k)
    ensures r.Ok? ==> forall k, c :: k in r.value && c in cols ==>
      Some(Get(r.value[k], c)) == ModeOf(GroupValues(rows, keyCols, k, c))
    ensures r.Err? <==>
      exists c, k :: c in cols && k in KeysOf(rows, keyCols) && Groupable(k) && ModeOf(GroupValues(rows, keyCols, k, c)).None?
  {
    match FirstModeless(rows, keyCols, cols)
    case Some(c) => Err(NoModeForGroup(c))
    case None =>
      Ok(map k | k in KeysOf(rows, keyCols) && Groupable(k) ::
        map c | c in cols :: ModeOf(GroupValues(rows, keyCols, k, c)).value)
  }

  /** One row per group key, by the aggregation method. */
  function Picks(name: string, rows: seq<Row>, keyCols: seq<string>, valueCols: seq<string>): (r: Outcome<map<seq<Value>, Row>>)
    ensures name == "first" ==> r == Ok(PickFirst(rows, keyCols))
    ensures name == "last" ==> r == Ok(PickLast(rows, keyCols))
    ensures name == "most_frequent" ==> r == ModePicks(rows, keyCols, valueCols)
    ensures name !in {"first", "last", "most_frequent"} ==> r == Err(UnknownAggregation(name))
  {
    if name == "first" then Ok(PickFirst(rows, keyCols))
    else if name == "last" then Ok(PickLast(rows, keyCols))
    else if name == "most_frequent" then ModePicks(rows, keyCols, valueCols)
    else Err(UnknownAggregation(name))
  }

  /** The picked `c` cell for key `k`; missing when the key has no group. */
  function PickedCell(picked: map<seq<Value>, Row>, k: seq<Value>, c: string): Value {
    if k in picked then Get(picked[k], c) else Null
  }

  /** The right side of `link`'s merge: every linked row, or one picked row per key. */
  datatype Right = AllRows(rows: seq<Row>) | OnePerKey(picked: map<seq<Value>, Row>)

  /** The aggregation methods `link` and `aggregate` know. */
  predicate KnownMethod(how: string) {
    how == "first" || how == "last" || how == "most_frequent"
  }

  /** `groupby(link_column)` of the (sorted) linked rows, reduced by the method `how`. */
  function AggregatedRight(linked: Table, sorted: seq<Row>, lc: string, src: string, how: string): (r: Outcome<(seq<string>, Right)>)
    ensures r.Ok? ==> lc !in r.value.0
    ensures !KnownMethod(how) ==> r == Err(UnknownAggregation(how))
    ensures how == "first" && r.Ok? ==> r.value == (Without(linked.columns, [lc]), OnePerKey(PickFirst(sorted, [lc])))
    ensures how == "last" && r.Ok? ==> r.value == (Without(linked.columns, [lc]), OnePerKey(PickLast(sorted, [lc])))
    ensures how == "most_frequent" && r.Ok? ==>
      r.value.0 == Without([src], [lc]) && r.value.1.OnePerKey? && ModePicks(sorted, [lc], [src]) == Ok(r.value.1.picked)
  {
    if !KnownMethod(how) then Err(UnknownAggregation(how))
    else if lc !in linked.columns then Err(ColumnNotFound([lc]))
    else if how == "most_frequent" then
      if src !in linked.columns then Err(ColumnNotFound([src]))
      else
        var modes := ModePicks(sorted, [lc], [src]);
        if modes.Err? then Err(modes.error) else Ok((Without([src], [lc]), OnePerKey(modes.value)))
    else
      var picks := if how == "first" then PickFirst(sorted, [lc]) else PickLast(sorted, [lc]);
      Ok((Without(linked.columns, [lc]), OnePerKey(picks)))
  }

  /**
   * The linked table reduced for the merge: the columns it brings and its
   * rows (without aggregation) or per-key picks (after the optional sort).
   */
  function LinkRight(linked: Table, lc: string, src: string, orderBy: seq<string>, agg: LinkAggregation): (r: Outcome<(seq<string>, Right)>)
    ensures r.Ok? ==> lc !in r.value.0
    ensures agg.NoAggregation? ==> (r.Ok? <==> lc in linked.columns && src in linked.columns)
    ensures agg.NoAggregation? && r.Ok? ==> r.value == (Without([src], [lc]), AllRows(linked.rows))
    ensures agg.Aggregation? && r.Ok? ==>
      r == AggregatedRight(linked, SortedFor(linked.rows, orderBy), lc, src, agg.methodName.GetOr("first"))
    ensures (agg.Aggregation? && !KnownMethod(agg.methodName.GetOr("first")) &&
             (orderBy == [] || Absent(orderBy, linked.columns) == [])) ==>
      r == Err(UnknownAggregation(agg.methodName.GetOr("first")))
  {
    match agg
    case NoAggregation =>
      var missing := Absent([lc, src], linked.columns);
      if missing != [] then
        assert missing[0] in missing;
        Err(ColumnNotFound(missing))
      else Ok((Without([src], [lc]), AllRows(linked.rows)))
    case Aggregation(m) =>
      if orderBy != [] && Absent(orderBy, linked.columns) != [] then Err(ColumnNotFound(Absent(orderBy, linked.columns)))
      else AggregatedRight(linked, SortedFor(linked.rows, orderBy), lc, src, m.GetOr("first"))
  }

  /** The left merge of the base rows with the right side on column `lc`. */
  function MergeRows(base: seq<Row>, lc: string, add: seq<string>, right: Right): (r: seq<Row>)
    ensures right.OnePerKey? ==> |r| == |base|
    ensures |r| >= |base|
  {
    match right
    case OnePerKey(p) => JoinPicked(base, [lc], p, add)
    case AllRows(rs) => JoinAll(base, [lc], rs, add)
  }

  /** A checked `link`: the linked table found, the columns it adds and its right side. */
  datatype LinkPlan = LinkPlan(linked: Table, add: seq<string>, right: Right)

  /**
   * Everything in `transform_link` that can raise before the merge: the
   * required keys, the table search, the reduction, the merge key in the
   * base table and the overlap of names, which the empty suffixes forbid.
   */
  function PlanLink(store: Store, data: Table, step: Step): (r: Outcome<LinkPlan>)
    requires step.kind.Link?
    ensures step.kind.linkedTable.None? || step.kind.linkedTable == Some("") ==>
      r == Err(MissingParameter("link", "linked_table"))
    ensures r.Ok? ==> step.kind.linkedTable.Some? && step.kind.linkColumn.Some? && step.sourceColumn.Some?
    ensures r.Ok? ==> FindLinked(store, step.kind.linkedTable.value) == Some(r.value.linked)
    ensures r.Ok? ==> LinkRight(r.value.linked, step.kind.linkColumn.value, step.sourceColumn.value,
                                step.kind.orderBy, step.kind.aggregation) == Ok((r.value.add, r.value.right))
    ensures r.Ok? ==>
      step.kind.linkColumn.value in data.columns && forall c :: c in r.value.add ==> c !in data.columns
  {
    var k := step.kind;
    var name :- RequiredText(k.linkedTable, "link", "linked_table");
    var lc :- RequiredText(k.linkColumn, "link", "link_column");
    var src :- Required(step.sourceColumn, "link", "source_column");
    match FindLinked(store, name)
    case None => Err(TableNotFound(name))
    case Some(linked) =>
      match LinkRight(linked, lc, src, k.orderBy, k.aggregation)
      case Err(e) => Err(e)
      case Ok((add, right)) =>
        if lc !in data.columns then Err(ColumnNotFound([lc]))
        else
          var overlap := Without(add, Without(add, data.columns));
          if overlap != [] then Err(DuplicateColumns(overlap))
          else
            Ok(LinkPlan(linked, add, right))
  }

  /** What `link` returns and the base table it leaves in `self.data`. */
  datatype LinkOutcome = LinkOutcome(result: Outcome<Working>, data: Table)

  /**
   * `transform_link`: the merged table replaces the base table, and its
   * `source_column` is returned; a missing column raises only after the
   * replacement.
   */
  function LinkStep(store: Store, data: Table, step: Step): (r: LinkOutcome)
    requires step.kind.Link?
    ensures PlanLink(store, data, step).Err? ==> r == LinkOutcome(Err(PlanLink(store, data, step).error), data)
    ensures PlanLink(store, data, step).Ok? ==>
      var p := PlanLink(store, data, step).value;
      r.data == Table(data.columns + p.add, MergeRows(data.rows, step.kind.linkColumn.value, p.add, p.right))
    ensures r.result.Ok? <==> PlanLink(store, data, step).Ok? && step.sourceColumn.value in r.data.columns
    ensures r.result.Ok? ==>
      r.result.value == Col(Series(step.sourceColumn, Range(|r.data.rows|), ColumnValues(r.data.rows, step.sourceColumn.value)))
  {
    match PlanLink(store, data, step)
    case Err(e) => LinkOutcome(Err(e), data)
    case Ok(p) =>
      var src := step.sourceColumn.value;
      var merged := Table(data.columns + p.add, MergeRows(data.rows, step.kind.linkColumn.value, p.add, p.right));
      if src !in merged.columns then LinkOutcome(Err(ColumnNotFound([src])), merged)
      else LinkOutcome(Ok(Col(Series(Some(src), Range(|merged.rows|), ColumnValues(merged.rows, src)))), merged)
  }

  /**
   * With an aggregation, the merge keeps every base row once, in order,
   * with its cells; the returned column holds each row's pick for its link
   * key, missing when the key has no group.
   */
  lemma LinkAggregatedKeepsRows(store: Store, data: Table, step: Step)
    requires step.kind.Link? && step.kind.aggregation.Aggregation? && PlanLink(store, data, step).Ok?
    ensures var r := LinkStep(store, data, step);
      |r.data.rows| == |data.rows| &&
      forall i, c :: 0 <= i < |data.rows| && c in data.columns ==> Get(r.data.rows[i], c) == Get(data.rows[i], c)
    ensures var r := LinkStep(store, data, step);
      var p := PlanLink(store, data, step).value;
      var src := step.sourceColumn.value;
      src in p.add ==>
        r.result.Ok? && p.right.OnePerKey? &&
        forall i :: 0 <= i < |data.rows| ==>
          r.result.value.series.values[i] == PickedCell(p.right.picked, KeyOf(data.rows[i], [step.kind.linkColumn.value]), src)
  {
  }

  /**
   * `link` with `first` after `order_by`: a base row whose key occurs in
   * the linked table gets the source value of a linked row of that key
   * that no other row of the key sorts before.
   */
  lemma LinkFirstIsEarliest(store: Store, data: Table, step: Step, i: nat, row: Row)
    requires step.kind.Link? && step.kind.aggregation == Aggregation(Some("first")) && step.kind.orderBy != []
    requires PlanLink(store, data, step).Ok? && i < |data.rows|
    requires var lc := step.kind.linkColumn.value;
      step.sourceColumn.value in PlanLink(store, data, step).value.add &&
      row in PlanLink(store, data, step).value.linked.rows &&
      KeyOf(row, [lc]) == KeyOf(data.rows[i], [lc]) && Groupable(KeyOf(row, [lc]))
    ensures var lc := step.kind.linkColumn.value;
      exists p :: p in PlanLink(store, data, step).value.linked.rows && KeyOf(p, [lc]) == KeyOf(row, [lc]) &&
        RowLeq(p, row, step.kind.orderBy) &&
        LinkStep(store, data, step).result.value.series.values[i] == Get(p, step.sourceColumn.value)
  {
    var lc, src := step.kind.linkColumn.value, step.sourceColumn.value;
    var plan := PlanLink(store, data, step).value;
    var picks := PickFirst(SortRows(plan.linked.rows, step.kind.orderBy), [lc]);
    assert plan.right == OnePerKey(picks);
    SortedFirstIsLeast(plan.linked.rows, [lc], step.kind.orderBy, row);
    LinkAggregatedKeepsRows(store, data, step);
    var k := KeyOf(row, [lc]);
    assert LinkStep(store, data, step).result.value.series.values[i] == PickedCell(picks, k, src);
    assert picks[k] in plan.linked.rows;
  }

  /** Without aggregation every pair of matching rows is kept: a key matched at most once keeps the row count. */
  lemma LinkUnaggregatedRowCount(store: Store, data: Table, step: Step)
    requires step.kind.Link? && step.kind.aggregation.NoAggregation? && PlanLink(store, data, step).Ok?
    ensures var lc := step.kind.linkColumn.value;
      var linked := PlanLink(store, data, step).value.linked;
      (forall i :: 0 <= i < |data.rows| ==> |Matching(linked.rows, [lc], KeyOf(data.rows[i], [lc]))| <= 1) ==>
        |LinkStep(store, data, step).data.rows| == |data.rows|
    ensures var lc := step.kind.linkColumn.value;
      var linked := PlanLink(store, data, step).value.linked;
      (exists i :: 0 <= i < |data.rows| && |Matching(linked.rows, [lc], KeyOf(data.rows[i], [lc]))| >= 2) ==>
        |LinkStep(store, data, step).data.rows| > |data.rows|
  {
    var lc := step.kind.linkColumn.value;
    var p := PlanLink(store, data, step).value;
    if forall i :: 0 <= i < |data.rows| ==> |Matching(p.linked.rows, [lc], KeyOf(data.rows[i], [lc]))| <= 1 {
      JoinAllKeepsCount(data.rows, [lc], p.linked.rows, p.add);
    }
    if exists i :: 0 <= i < |data.rows| && |Matching(p.linked.rows, [lc], KeyOf(data.rows[i], [lc]))| >= 2 {
      var i :| 0 <= i < |data.rows| && |Matching(p.linked.rows, [lc], KeyOf(data.rows[i], [lc]))| >= 2;
      JoinAllRepeats(data.rows, [lc], p.linked.rows, p.add, i);
    }
  }

  /**
   * Without aggregation and with at most one linked row per key, the merge
   * is the base table row by row: each row keeps its cells and gains the
   * added columns from its one match, or missing values when it has none.
   */
  lemma LinkUnaggregatedRows(store: Store, data: Table, step: Step)
    requires step.kind.Link? && step.kind.aggregation.NoAggregation? && PlanLink(store, data, step).Ok?
    requires var lc := step.kind.linkColumn.value; var linked := PlanLink(store, data, step).value.linked;
      forall i :: 0 <= i < |data.rows| ==> |Matching(linked.rows, [lc], KeyOf(data.rows[i], [lc]))| <= 1
    ensures var lc := step.kind.linkColumn.value; var p := PlanLink(store, data, step).value;
      var out := LinkStep(store, data, step).data.rows;
      |out| == |data.rows| &&
      forall i :: 0 <= i < |data.rows| ==>
        var ms := Matching(p.linked.rows, [lc], KeyOf(data.rows[i], [lc]));
        out[i] == Extend(data.rows[i], p.add, if ms == [] then None else Some(ms[0]))
  {
    var p := PlanLink(store, data, step).value;
    JoinAllUnique(data.rows, [step.kind.linkColumn.value], p.linked.rows, p.add);
  }

  /** `aggregate`'s method, "first" by default. */
  function AggregationMethod(step: Step): string
    requires step.kind.Aggregate?
  {
    step.kind.aggregationName.GetOr("first")
  }

  /** The per-group picks `aggregate` merges back. */
  function AggregatePicks(f: Frame, step: Step): Outcome<map<seq<Value>, Row>>
    requires step.kind.Aggregate?
  {
    Picks(AggregationMethod(step), SortedFor(f.rows, step.kind.orderBy), step.kind.groupBy, Without(f.columns, step.kind.groupBy))
  }

  /**
   * `transform_aggregate`: group the working frame (sorted first when
   * `order_by` is given), pick per group, left-merge the picks back on the
   * group keys and return the picked `target` column, one value per row.
   */
  function AggregateStep(w: Working, target: string, step: Step): (r: Outcome<Working>)
    requires step.kind.Aggregate?
    ensures step.sourceColumns.None? || step.sourceColumns == Some([]) ==>
      r == Err(MissingParameter("aggregate", "source_columns"))
    ensures step.sourceColumns.Some? && step.sourceColumns.value != [] && step.kind.groupBy == [] ==>
      r == Err(MissingParameter("aggregate", "group_by"))
    ensures r.Ok? ==>
      w.Rows? && r.value.Col? && r.value.series.index == Range(|w.frame.rows|) &&
      |r.value.series.values| == |w.frame.rows|
    ensures r.Ok? && target !in step.kind.groupBy ==>
      AggregatePicks(w.frame, step).Ok? &&
      forall i :: 0 <= i < |w.frame.rows| ==>
        r.value.series.values[i] == PickedCell(AggregatePicks(w.frame, step).value, KeyOf(w.frame.rows[i], step.kind.groupBy), target)
  {
    if step.sourceColumns.None? || step.sourceColumns.value == [] then Err(MissingParameter("aggregate", "source_columns"))
    else if step.kind.groupBy == [] then Err(MissingParameter("aggregate", "group_by"))
    else
      var groupBy, orderBy := step.kind.groupBy, step.kind.orderBy;
      var f :- FrameOf(w, "aggregate");
      var missing := Absent(step.sourceColumns.value, f.columns);
      if missing != [] then Err(ColumnNotFound(missing))
      else if orderBy != [] && Absent(orderBy, f.columns) != [] then Err(ColumnNotFound(Absent(orderBy, f.columns)))
      else if Absent(groupBy, f.columns) != [] then Err(ColumnNotFound(Absent(groupBy, f.columns)))
      else
        var picks :- AggregatePicks(f, step);
        MergePicked(f, target, groupBy, picks)
  }

  /**
   * The end of `transform_aggregate`: the picks merged back on the group
   * keys and the `target` column read off the merged frame. A group column
   * as target is read from the `_agg` copy the merge makes, and a frame that
   * already has that name makes the merge raise.
   */
  function MergePicked(f: Frame, target: string, groupBy: seq<string>, picks: map<seq<Value>, Row>): (r: Outcome<Working>)
    ensures target !in f.columns ==> r == Err(ColumnNotFound([target]))
    ensures r.Ok? ==>
      r.value.Col? && r.value.series.index == Range(|f.rows|) && |r.value.series.values| == |f.rows|
    ensures r.Ok? && target !in groupBy ==>
      forall i :: 0 <= i < |f.rows| ==> r.value.series.values[i] == PickedCell(picks, KeyOf(f.rows[i], groupBy), target)
  {
    var n := |f.rows|;
    if target !in f.columns then Err(ColumnNotFound([target]))
    else if target in groupBy then
      (if target + "_agg" in f.columns then Ok(Col(Series(Some(target), Range(n), ColumnValues(f.rows, target + "_agg"))))
       else Err(ColumnNotFound([target + "_agg"])))
    else if target + "_agg" in f.columns then Err(DuplicateColumns([target + "_agg"]))
    else Ok(Col(Series(Some(target), Range(n), ColumnValues(JoinPicked(f.rows, groupBy, picks, [target]), target))))
  }

  /** With `first` after `order_by`, each row with a complete key gets the target value of the earliest row of its group. */
  lemma AggregateFirstIsEarliest(f: Frame, target: string, step: Step, i: nat)
    requires step.kind.Aggregate? && AggregationMethod(step) == "first" && step.kind.orderBy != []
    requires AggregateStep(Rows(f), target, step).Ok? && target !in step.kind.groupBy && i < |f.rows|
    requires Groupable(KeyOf(f.rows[i], step.kind.groupBy))
    ensures exists p ::
      p in f.rows && KeyOf(p, step.kind.groupBy) == KeyOf(f.rows[i], step.kind.groupBy) &&
      RowLeq(p, f.rows[i], step.kind.orderBy) &&
      AggregateStep(Rows(f), target, step).value.series.values[i] == Get(p, target)
  {
    SortedFirstIsLeast(f.rows, step.kind.groupBy, step.kind.orderBy, f.rows[i]);
  }

  /** A row whose group key has a missing part gets a missing value: such rows form no group. */
  lemma AggregateNullKey(f: Frame, target: string, step: Step, i: nat)
    requires step.kind.Aggregate? && AggregationMethod(step) in {"first", "last"}
    requires AggregateStep(Rows(f), target, step).Ok? && target !in step.kind.groupBy && i < |f.rows|
    requires !Groupable(KeyOf(f.rows[i], step.kind.groupBy))
    ensures AggregateStep(Rows(f), target, step).value.series.values[i] == Null
  {
  }

  /** An unknown aggregation method raises once the columns check out. */
  lemma AggregateUnknownMethod(f: Frame, target: string, step: Step)
    requires step.kind.Aggregate? && AggregationMethod(step) !in {"first", "last", "most_frequent"}
    requires step.sourceColumns.Some? && step.sourceColumns.value != [] && step.kind.groupBy != []
    requires Absent(step.sourceColumns.value, f.columns) == [] && Absent(step.kind.groupBy, f.columns) == []
    requires step.kind.orderBy == [] || Absent(step.kind.orderBy, f.columns) == []
    ensures AggregateStep(Rows(f), target, step) == Err(UnknownAggregation(AggregationMethod(step)))
  {
  }

  /** Listed source columns the frame lacks make `aggregate` raise, naming them. */
  lemma AggregateMissingColumns(f: Frame, target: string, step: Step)
    requires step.kind.Aggregate? && step.sourceColumns.Some? && step.sourceColumns.value != [] && step.kind.groupBy != []
    requires Absent(step.sourceColumns.value, f.columns) != []
    ensures AggregateStep(Rows(f), target, step) == Err(ColumnNotFound(Absent(step.sourceColumns.value, f.columns)))
  {
  }
}
