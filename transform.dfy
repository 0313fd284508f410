/**
 * `apply_transformations`: for every column mapping, seed the working data
 * from the base table, run the chain of steps, look up the declared type
 * (and cast in strict mode), store the column; then put the columns in
 * schema order and check the row count against the base table.
 */
module Transform {
  import opened Wrappers
  import opened Values
  import opened Schema
  import opened Steps

  /** The transformer's state: `self.data`, `self.lookup_cache`, and how many uuids it has drawn. */
  datatype Session = Session(data: Table, cache: map<string, Table>, draws: nat)

  /** What stays fixed for one transformer: the target schema, the table name, the data directories and the services. */
  datatype Context = Context(schema: SchemaMap, table: string, store: Store, ext: Externals)

  /** A step's result together with the state it leaves. */
  datatype StepOutcome = StepOutcome(result: Outcome<Working>, session: Session)

  /**
   * One step, dispatched on its type. Only `link` replaces the base table,
   * only `lookup` fills the cache and only `generate_id` draws uuids; no
   * step forgets a cached table.
   */
  function RunStep(ctx: Context, s: Session, w: Working, target: string, step: Step): (r: StepOutcome)
    ensures !step.kind.Link? ==> r.session.data == s.data
    ensures !step.kind.Lookup? ==> r.session.cache == s.cache
    ensures !step.kind.GenerateId? ==> r.session.draws == s.draws
    ensures r.session.draws >= s.draws
    ensures forall n :: n in s.cache ==> n in r.session.cache && r.session.cache[n] == s.cache[n]
    ensures step.kind.Unsupported? ==> r.result == Err(UnsupportedStep(step.kind.typeName))
  {
    match step.kind
    case Copy => StepOutcome(CopyStep(w, step), s)
    case Map(_) => StepOutcome(MapStep(w, step), s)
    case Lookup(_, _, _, _) =>
      var (res, cache') := LookupStep(ctx.store, s.cache, w, step);
      StepOutcome(res, s.(cache := cache'))
    case Link(_, _, _, _) =>
      var o := LinkStep(ctx.store, s.data, step);
      StepOutcome(o.result, s.(data := o.data))
    case Aggregate(_, _, _) => StepOutcome(AggregateStep(w, target, step), s)
    case NormalizeDate(_) => StepOutcome(NormalizeDateStep(ctx.ext, w, step), s)
    case Concatenate(_) => StepOutcome(ConcatenateStep(ctx.ext, w, step), s)
    case Default(_) => StepOutcome(DefaultStep(|s.data.rows|, step), s)
    case ConditionalMap(_, _) => StepOutcome(ConditionalMapSpec(ctx.ext, |s.data.rows|, w, step), s)
    case Filter(_) => StepOutcome(FilterStep(w, step), s)
    case Derive(_) => StepOutcome(DeriveStep(w, step), s)
    case GenerateId(_) =>
      var o := GenerateIdStep(ctx.ext, s.data, s.draws, w, step);
      StepOutcome(o.result, s.(draws := s.draws + o.used))
    case Unsupported(name) => StepOutcome(Err(UnsupportedStep(name)), s)
  }

  /** A chain without `link` steps. */
  predicate LinkFree(steps: seq<Step>) {
    forall k :: 0 <= k < |steps| ==> !steps[k].kind.Link?
  }

  /** The chain: each step's output is the next step's input; the first error stops it. */
  function RunChain(ctx: Context, s: Session, w: Working, target: string, steps: seq<Step>): (r: StepOutcome)
    ensures LinkFree(steps) ==> r.session.data == s.data
    ensures r.session.draws >= s.draws
    decreases |steps|
  {
    if steps == [] then StepOutcome(Ok(w), s)
    else
      var o := RunStep(ctx, s, w, target, steps[0]);
      if o.result.Err? then o
      else RunChain(ctx, o.session, o.result.value, target, steps[1..])
  }

  /** Running `a + b` is running `a`, then `b` on its output and state. */
  lemma {:induction false} ChainAppend(ctx: Context, s: Session, w: Working, target: string, a: seq<Step>, b: seq<Step>)
    ensures RunChain(ctx, s, w, target, a + b) ==
      var o := RunChain(ctx, s, w, target, a);
      if o.result.Err? then o else RunChain(ctx, o.session, o.result.value, target, b)
    decreases |a|
  {
    if a != [] {
      assert (a + b)[0] == a[0];
      assert (a + b)[1..] == a[1..] + b;
      var o := RunStep(ctx, s, w, target, a[0]);
      if o.result.Ok? {
        ChainAppend(ctx, o.session, o.result.value, target, a[1..], b);
      }
    } else {
      assert a + b == b;
    }
  }

  /** A chain stops at its first failing step: the steps after it do not run. */
  lemma ChainStopsAtError(ctx: Context, s: Session, w: Working, target: string, a: seq<Step>, b: seq<Step>)
    requires RunChain(ctx, s, w, target, a).result.Err?
    ensures RunChain(ctx, s, w, target, a + b) == RunChain(ctx, s, w, target, a)
  {
    ChainAppend(ctx, s, w, target, a, b);
  }

  /** A mapping's `transformation`: one step, a list of steps, or anything else. */
  datatype Transformation = Single(step: Step) | Chain(steps: seq<Step>) | Malformed

  /** One entry of the column mappings. */
  datatype ColumnSpec = ColumnSpec(addColumn: string, transformation: Transformation)

  /** The steps of a mapping, a single step becoming a list of one; a non-list or an empty list raises. */
  function StepsOf(spec: ColumnSpec): (r: Outcome<seq<Step>>)
    ensures r.Ok? <==> spec.transformation.Single? || (spec.transformation.Chain? && spec.transformation.steps != [])
    ensures r.Err? ==> r.error == InvalidTransformations(spec.addColumn)
    ensures r.Ok? ==> r.value != []
    ensures spec.transformation.Single? ==> r == Ok([spec.transformation.step])
    ensures spec.transformation.Chain? && r.Ok? ==> r.value == spec.transformation.steps
  {
    match spec.transformation
    case Single(step) => Ok([step])
    case Chain(steps) => if steps == [] then Err(InvalidTransformations(spec.addColumn)) else Ok(steps)
    case Malformed => Err(InvalidTransformations(spec.addColumn))
  }

  /** `source_columns or [source_column]`; None when its first entry is missing or empty. */
  function SeedColumns(first: Step): (r: Option<seq<string>>)
    ensures r.Some? ==> r.value != [] && r.value[0] != ""
  {
    var cols :=
      if first.sourceColumns.Some? && first.sourceColumns.value != [] then first.sourceColumns.value
      else if first.sourceColumn.Some? then [first.sourceColumn.value]
      else [];
    if cols == [] || cols[0] == "" then None else Some(cols)
  }

  /** The rows cut down to the columns `cols`. */
  function Project(rows: seq<Row>, cols: seq<string>): (r: seq<Row>)
    ensures |r| == |rows|
    ensures forall i, c :: 0 <= i < |rows| && c in cols ==> Get(r[i], c) == Get(rows[i], c)
    ensures forall i, c :: 0 <= i < |rows| && c !in cols ==> c !in r[i]
  {
    seq(|rows|, i requires 0 <= i < |rows| => map c | c in cols :: Get(rows[i], c))
  }

  /**
   * The chain's initial data: nothing for a chain that starts with `link`
   * or whose first source column is missing, otherwise the base table's
   * source columns with the base table's labels.
   */
  function Seed(s: Session, first: Step): (r: Outcome<Working>)
    ensures first.kind.Link? || SeedColumns(first).None? ==> r == Ok(NoData)
    ensures r.Ok? && r.value.Rows? ==>
      !first.kind.Link? && r.value.frame.columns == SeedColumns(first).value &&
      r.value.frame.index == Range(|s.data.rows|) && |r.value.frame.rows| == |s.data.rows|
    ensures r.Ok? && r.value.Rows? ==>
      forall i, c :: 0 <= i < |s.data.rows| && c in r.value.frame.columns ==>
        c in s.data.columns && Get(r.value.frame.rows[i], c) == Get(s.data.rows[i], c)
    ensures !r.Ok? <==>
      !first.kind.Link? && SeedColumns(first).Some? && Absent(SeedColumns(first).value, s.data.columns) != []
    ensures !r.Ok? ==> r.error == ColumnNotFound(Absent(SeedColumns(first).value, s.data.columns))
  {
    if first.kind.Link? then Ok(NoData)
    else match SeedColumns(first)
      case None => Ok(NoData)
      case Some(cols) =>
        var missing := Absent(cols, s.data.columns);
        if missing != [] then Err(ColumnNotFound(missing))
        else Ok(Rows(Frame(Range(|s.data.rows|), cols, Project(s.data.rows, cols))))
  }

  /** The declared type lookup and, in strict mode, the cast of a finished chain. */
  function Finish(ctx: Context, strict: bool, target: string, w: Working): (r: Outcome<Working>)
    ensures !strict ==> (r.Ok? <==> GetColumnType(ctx.schema, ctx.table, target, false).Ok?)
    ensures !strict && r.Ok? ==> r.value == w
    ensures strict && r.Ok? ==>
      var ty := GetColumnType(ctx.schema, ctx.table, target, true);
      ty.Ok? && ty.value.Some? && r == CastToType(ctx.ext, w, ty.value.value)
    ensures strict && Declared(ctx.schema, ctx.table, target).None? ==> r == Err(TypeNotDeclared(target))
  {
    match GetColumnType(ctx.schema, ctx.table, target, strict)
    case Err(e) => Err(e)
    case Ok(ty) =>
      if !strict then Ok(w)
      else CastToType(ctx.ext, w, ty.value)
  }

  /** One mapping from its steps to its finished column, and the state afterwards. */
  function OneColumn(ctx: Context, strict: bool, s: Session, spec: ColumnSpec): (r: StepOutcome)
    ensures StepsOf(spec).Ok? && LinkFree(StepsOf(spec).value) ==> r.session.data == s.data
    ensures StepsOf(spec).Err? ==> r == StepOutcome(Err(StepsOf(spec).error), s)
    ensures r.result.Ok? ==>
      StepsOf(spec).Ok? && Seed(s, StepsOf(spec).value[0]).Ok? &&
      var o := RunChain(ctx, s, Seed(s, StepsOf(spec).value[0]).value, spec.addColumn, StepsOf(spec).value);
      o.result.Ok? && r == StepOutcome(Finish(ctx, strict, spec.addColumn, o.result.value), o.session)
  {
    match StepsOf(spec)
    case Err(e) => StepOutcome(Err(e), s)
    case Ok(steps) =>
      match Seed(s, steps[0])
      case Err(e) => StepOutcome(Err(e), s)
      case Ok(w) =>
        var o := RunChain(ctx, s, w, spec.addColumn, steps);
        if o.result.Err? then o
        else StepOutcome(Finish(ctx, strict, spec.addColumn, o.result.value), o.session)
  }

  /** The mapping brings in no `link` step. */
  predicate SpecLinkFree(spec: ColumnSpec) {
    match spec.transformation
    case Single(step) => !step.kind.Link?
    case Chain(steps) => LinkFree(steps)
    case Malformed => true
  }

  /** `transformed_data` while columns are added: its row labels and the cells of each column. */
  datatype Assembled = Assembled(index: seq<int>, cells: map<string, seq<Value>>)

  /** Every column has one cell per label. */
  predicate Aligned(a: Assembled) {
    forall c :: c in a.cells ==> |a.cells[c]| == |a.index|
  }

  predicate Distinct(labels: seq<int>) {
    forall i, j :: 0 <= i < j < |labels| ==> labels[i] != labels[j]
  }

  /** The series' value at label `l`; missing for a label it lacks. */
  function LabelValue(s: Series, l: int): (v: Value)
    ensures l !in s.index ==> v == Null
  {
    match IndexOf(s.index, l)
    case None => Null
    case Some(p) => if p < |s.values| then s.values[p] else Null
  }

  /**
   * The series lined up with `index`: positionally when the labels are the
   * same, by label otherwise, which needs the series' labels distinct.
   */
  function AlignSeries(index: seq<int>, s: Series): (r: Outcome<seq<Value>>)
    ensures r.Ok? ==> |r.value| == |index|
    ensures r.Err? <==> s.index != index && !Distinct(s.index)
    ensures r.Err? ==> r.error == DuplicateLabels
    ensures r.Ok? && s.index != index ==> forall i :: 0 <= i < |index| ==> r.value[i] == LabelValue(s, index[i])
    ensures r.Ok? && s.index == index ==>
      forall i :: 0 <= i < |index| ==> r.value[i] == if i < |s.values| then s.values[i] else Null
  {
    if s.index == index then Ok(seq(|index|, i requires 0 <= i < |index| => if i < |s.values| then s.values[i] else Null))
    else if !Distinct(s.index) then Err(DuplicateLabels)
    else Ok(seq(|index|, i requires 0 <= i < |index| => LabelValue(s, index[i])))
  }

  /** With distinct labels the positional shortcut agrees with lining up by label. */
  lemma AlignByPositionIsByLabel(s: Series)
    requires Distinct(s.index) && |s.values| == |s.index|
    ensures AlignSeries(s.index, s).Ok?
    ensures forall i :: 0 <= i < |s.index| ==> AlignSeries(s.index, s).value[i] == LabelValue(s, s.index[i])
  {
    forall i | 0 <= i < |s.index| ensures IndexOf(s.index, s.index[i]) == Some(i) {
      assert s.index[i] in s.index;
    }
  }

  /** `transformed_data[target] = series`; a frame with no data adopts the labels of a non-empty series first. */
  function AssignSeries(a: Assembled, target: string, s: Series): (r: Outcome<Assembled>)
    requires Aligned(a)
    ensures r.Ok? ==> Aligned(r.value) && r.value.cells.Keys == a.cells.Keys + {target}
    ensures |a.index| == 0 && |s.values| > 0 ==>
      r.Ok? && r.value.index == s.index && forall c :: c in a.cells && c != target ==> r.value.cells[c] == Repeat(Null, |s.index|)
    ensures !(|a.index| == 0 && |s.values| > 0) && r.Ok? ==>
      r.value.index == a.index && forall c :: c in a.cells && c != target ==> r.value.cells[c] == a.cells[c]
    ensures !(|a.index| == 0 && |s.values| > 0) && r.Ok? ==>
      AlignSeries(a.index, s).Ok? && r.value.cells[target] == AlignSeries(a.index, s).value
    ensures r.Ok? ==> AlignSeries(r.value.index, s) == Ok(r.value.cells[target])
  {
    var base := if |a.index| == 0 && |s.values| > 0 then Assembled(s.index, map c | c in a.cells :: Repeat(Null, |s.index|)) else a;
    match AlignSeries(base.index, s)
    case Err(e) => Err(e)
    case Ok(vals) => Ok(Assembled(base.index, base.cells[target := vals]))
  }

  /** The one column of a single-column frame, as a series. */
  function SoleColumn(f: Frame): (s: Series)
    requires |f.columns| == 1
    ensures s.name == Some(f.columns[0]) && s.index == f.index
    ensures s.values == ColumnValues(f.rows, f.columns[0])
  {
    Series(Some(f.columns[0]), f.index, ColumnValues(f.rows, f.columns[0]))
  }

  /**
   * `cells` is what assigning `w` stores in a table labelled `index`: all
   * missing for no data, otherwise the series (or the one column of the
   * frame) lined up with `index`.
   */
  predicate PlacedCells(index: seq<int>, w: Working, cells: seq<Value>) {
    match w
    case NoData => cells == Repeat(Null, |index|)
    case Col(s) => AlignSeries(index, s) == Ok(cells)
    case Rows(f) => |f.columns| == 1 && AlignSeries(index, SoleColumn(f)) == Ok(cells)
  }

  /**
   * `transformed_data[target] = current_data` for each shape of working
   * data. Once the table has labels they stay and the other columns are
   * untouched; on a table without labels the other columns are missing
   * throughout.
   */
  function Assign(a: Assembled, target: string, w: Working): (r: Outcome<Assembled>)
    requires Aligned(a)
    ensures r.Ok? ==> Aligned(r.value) && r.value.cells.Keys == a.cells.Keys + {target}
    ensures w.Rows? && |w.frame.columns| != 1 ==> r == Err(NotSingleColumn(target))
    ensures w.NoData? ==> r == Ok(Assembled(a.index, a.cells[target := Repeat(Null, |a.index|)]))
    ensures w.Col? ==> r == AssignSeries(a, target, w.series)
    ensures r.Ok? ==> PlacedCells(r.value.index, w, r.value.cells[target])
    ensures r.Ok? && |a.index| > 0 ==>
      r.value.index == a.index && forall c :: c in a.cells && c != target ==> r.value.cells[c] == a.cells[c]
    ensures r.Ok? && |a.index| == 0 ==>
      forall c :: c in a.cells && c != target ==> r.value.cells[c] == Repeat(Null, |r.value.index|)
  {
    match w
    case NoData => Ok(Assembled(a.index, a.cells[target := Repeat(Null, |a.index|)]))
    case Col(s) => AssignSeries(a, target, s)
    case Rows(f) =>
      if |f.columns| != 1 then Err(NotSingleColumn(target))
      else AssignSeries(a, target, SoleColumn(f))
  }

  /** `reindex(columns=order)`: the schema's columns in order, undeclared ones dropped, absent ones missing. */
  function Reindex(a: Assembled, order: seq<string>): (f: Frame)
    requires Aligned(a)
    ensures f.index == a.index && f.columns == order && |f.rows| == |a.index|
    ensures forall i, c :: 0 <= i < |a.index| && c in order && c in a.cells ==> Get(f.rows[i], c) == a.cells[c][i]
    ensures forall i, c :: 0 <= i < |a.index| && c !in a.cells ==> Get(f.rows[i], c) == Null
    ensures forall i, c :: 0 <= i < |a.index| && c !in order ==> c !in f.rows[i]
  {
    Frame(a.index, order, seq(|a.index|, i requires 0 <= i < |a.index| =>
      map c | c in order :: if c in a.cells then a.cells[c][i] else Null))
  }

  /** The columns assembled so far and the state. */
  datatype Build = Build(result: Outcome<Assembled>, session: Session)

  /** The names the mappings add. */
  function Targets(specs: seq<ColumnSpec>): (r: set<string>)
    ensures forall k :: 0 <= k < |specs| ==> specs[k].addColumn in r
    ensures forall c :: c in r ==> exists k :: 0 <= k < |specs| && specs[k].addColumn == c
  {
    set k | 0 <= k < |specs| :: specs[k].addColumn
  }

  /** The first mapping's name and the names of the rest. */
  lemma TargetsCons(specs: seq<ColumnSpec>)
    requires specs != []
    ensures Targets(specs) == {specs[0].addColumn} + Targets(specs[1..])
  {
    forall c | c in Targets(specs) ensures c in {specs[0].addColumn} + Targets(specs[1..]) {
      var k :| 0 <= k < |specs| && specs[k].addColumn == c;
      if k > 0 {
        assert specs[1..][k - 1] == specs[k];
      }
    }
  }

  /** How one mapping is built: from the state to its finished column and the state afterwards. */
  type ColumnBuilder = (Session, ColumnSpec) -> StepOutcome

  /**
   * The mappings in order, each column built by `build` and assigned as it
   * is finished; the first error stops the run.
   */
  function AssembleWith(build: ColumnBuilder, s: Session, a: Assembled, specs: seq<ColumnSpec>): (r: Build)
    requires Aligned(a)
    ensures r.result.Ok? ==> Aligned(r.result.value)
    ensures r.result.Ok? ==> r.result.value.cells.Keys == a.cells.Keys + Targets(specs)
    decreases |specs|
  {
    if specs == [] then Build(Ok(a), s)
    else
      var o := build(s, specs[0]);
      if o.result.Err? then Build(Err(o.result.error), o.session)
      else match Assign(a, specs[0].addColumn, o.result.value)
        case Err(e) => Build(Err(e), o.session)
        case Ok(a') =>
          var rest := AssembleWith(build, o.session, a', specs[1..]);
          TargetsCons(specs);
          rest
  }

  /** `OneColumn` as a column builder. */
  function Builder(ctx: Context, strict: bool): ColumnBuilder {
    (t: Session, spec: ColumnSpec) => OneColumn(ctx, strict, t, spec)
  }

  /** Without `link` no mapping replaces the base table. */
  lemma {:induction false} AssembleKeepsData(ctx: Context, strict: bool, s: Session, a: Assembled, specs: seq<ColumnSpec>)
    requires Aligned(a)
    ensures (forall k :: 0 <= k < |specs| ==> SpecLinkFree(specs[k])) ==>
      AssembleWith(Builder(ctx, strict), s, a, specs).session.data == s.data
    decreases |specs|
  {
    if specs != [] && forall k :: 0 <= k < |specs| ==> SpecLinkFree(specs[k]) {
      var o := OneColumn(ctx, strict, s, specs[0]);
      assert SpecLinkFree(specs[0]);
      assert o.session.data == s.data;
      if o.result.Ok? && Assign(a, specs[0].addColumn, o.result.value).Ok? {
        assert forall k :: 0 <= k < |specs[1..]| ==> specs[1..][k] == specs[k + 1];
        AssembleKeepsData(ctx, strict, o.session, Assign(a, specs[0].addColumn, o.result.value).value, specs[1..]);
      }
    }
  }

  /** `apply_transformations`' loop over the mappings, each built by `OneColumn`. */
  function AddColumns(ctx: Context, strict: bool, s: Session, a: Assembled, specs: seq<ColumnSpec>): (r: Build)
    requires Aligned(a)
    ensures r.result.Ok? ==> Aligned(r.result.value)
    ensures r.result.Ok? ==> r.result.value.cells.Keys == a.cells.Keys + Targets(specs)
    ensures (forall k :: 0 <= k < |specs| ==> SpecLinkFree(specs[k])) ==> r.session.data == s.data
  {
    AssembleKeepsData(ctx, strict, s, a, specs);
    AssembleWith(Builder(ctx, strict), s, a, specs)
  }

  /** Once the table has labels, the mappings that follow keep them. */
  lemma {:induction false} AssembleKeepsLabels(build: ColumnBuilder, s: Session, a: Assembled, specs: seq<ColumnSpec>)
    requires Aligned(a) && |a.index| > 0
    requires AssembleWith(build, s, a, specs).result.Ok?
    ensures AssembleWith(build, s, a, specs).result.value.index == a.index
    decreases |specs|
  {
    if specs != [] {
      var o := build(s, specs[0]);
      AssembleKeepsLabels(build, o.session, Assign(a, specs[0].addColumn, o.result.value).value, specs[1..]);
    }
  }

  /**
   * A column no later mapping names keeps its cells, unless the table had no
   * labels yet: then a later column's labels leave it missing throughout.
   */
  lemma {:induction false} AssembleKeepsColumn(build: ColumnBuilder, s: Session, a: Assembled, specs: seq<ColumnSpec>, c: string)
    requires Aligned(a) && c in a.cells
    requires forall j :: 0 <= j < |specs| ==> specs[j].addColumn != c
    requires AssembleWith(build, s, a, specs).result.Ok?
    ensures var f := AssembleWith(build, s, a, specs).result.value;
      f.cells[c] == if |a.index| == 0 then Repeat(Null, |f.index|) else a.cells[c]
    decreases |specs|
  {
    if specs == [] {
      assert |a.cells[c]| == |a.index|;
    } else {
      var o := build(s, specs[0]);
      var a' := Assign(a, specs[0].addColumn, o.result.value).value;
      assert forall j :: 0 <= j < |specs[1..]| ==> specs[1..][j] == specs[j + 1];
      AssembleKeepsColumn(build, o.session, a', specs[1..], c);
      if |a'.index| > 0 {
        AssembleKeepsLabels(build, o.session, a', specs[1..]);
      }
    }
  }

  /** Running `p + q` is running `p`, then `q` from its table and state; an error in `p` stops the run. */
  lemma {:induction false} AssembleAppend(build: ColumnBuilder, s: Session, a: Assembled, p: seq<ColumnSpec>, q: seq<ColumnSpec>)
    requires Aligned(a)
    ensures var b := AssembleWith(build, s, a, p);
      AssembleWith(build, s, a, p + q) == if b.result.Err? then b else AssembleWith(build, b.session, b.result.value, q)
    decreases |p|
  {
    if p == [] {
      assert p + q == q;
    } else {
      assert (p + q)[0] == p[0] && (p + q)[1..] == p[1..] + q;
      var o := build(s, p[0]);
      if o.result.Ok? && Assign(a, p[0].addColumn, o.result.value).Ok? {
        AssembleAppend(build, o.session, Assign(a, p[0].addColumn, o.result.value).value, p[1..], q);
      }
    }
  }

  lemma PrefixSnoc<T>(xs: seq<T>, k: nat)
    requires k < |xs|
    ensures xs[..k + 1] == xs[..k] + [xs[k]]
  {
  }

  /** The run of the first `k + 1` mappings is that of the first `k`, followed by mapping `k` built and placed. */
  lemma AssemblePrefix(build: ColumnBuilder, s: Session, a: Assembled, specs: seq<ColumnSpec>, k: nat)
    requires Aligned(a) && k < |specs|
    requires AssembleWith(build, s, a, specs[..k + 1]).result.Ok?
    ensures var pre := AssembleWith(build, s, a, specs[..k]);
      pre.result.Ok? &&
      var o := build(pre.session, specs[k]);
      o.result.Ok? && AssembleWith(build, s, a, specs[..k + 1]) == Build(Assign(pre.result.value, specs[k].addColumn, o.result.value), o.session)
  {
    PrefixSnoc(specs, k);
    AssembleAppend(build, s, a, specs[..k], [specs[k]]);
    var pre := AssembleWith(build, s, a, specs[..k]);
    if pre.result.Ok? {
      assert [specs[k]][1..] == [];
    }
  }

  lemma SplitAfter<T>(xs: seq<T>, k: nat)
    requires k < |xs|
    ensures xs[..k + 1] + xs[k + 1..] == xs
  {
  }

  /** The run of all mappings continues the run of the first `k + 1` from its table and state. */
  lemma AssembleSplit(build: ColumnBuilder, s: Session, a: Assembled, specs: seq<ColumnSpec>, k: nat)
    requires Aligned(a) && k < |specs|
    requires AssembleWith(build, s, a, specs).result.Ok?
    ensures var mid := AssembleWith(build, s, a, specs[..k + 1]);
      mid.result.Ok? && AssembleWith(build, s, a, specs) == AssembleWith(build, mid.session, mid.result.value, specs[k + 1..])
  {
    SplitAfter(specs, k);
    AssembleAppend(build, s, a, specs[..k + 1], specs[k + 1..]);
  }

  /** The mappings after `k`, none naming `specs[k]`'s column, leave that column and the labels alone. */
  lemma AssembleTailKeeps(build: ColumnBuilder, t: Session, m: Assembled, specs: seq<ColumnSpec>, k: nat)
    requires Aligned(m) && k < |specs| && specs[k].addColumn in m.cells
    requires forall j :: k < j < |specs| ==> specs[j].addColumn != specs[k].addColumn
    requires AssembleWith(build, t, m, specs[k + 1..]).result.Ok?
    ensures var f := AssembleWith(build, t, m, specs[k + 1..]).result.value;
      (|m.index| > 0 ==> f.index == m.index) &&
      f.cells[specs[k].addColumn] == if |m.index| == 0 then Repeat(Null, |f.index|) else m.cells[specs[k].addColumn]
  {
    var rest := specs[k + 1..];
    assert forall j :: 0 <= j < |rest| ==> rest[j] == specs[k + 1 + j];
    AssembleKeepsColumn(build, t, m, rest, specs[k].addColumn);
    if |m.index| > 0 {
      AssembleKeepsLabels(build, t, m, rest);
    }
  }

  /**
   * The last mapping that names a column decides it: with `placed` the table
   * right after that mapping's column was built and assigned, the final
   * cells are `placed`'s, against labels that have not changed since, or
   * missing throughout when `placed` had no labels yet.
   */
  lemma AssembleLastWins(build: ColumnBuilder, s: Session, a: Assembled, specs: seq<ColumnSpec>, k: nat)
    requires Aligned(a) && k < |specs|
    requires forall j :: k < j < |specs| ==> specs[j].addColumn != specs[k].addColumn
    requires AssembleWith(build, s, a, specs).result.Ok?
    ensures var pre := AssembleWith(build, s, a, specs[..k]);
      pre.result.Ok? && var o := build(pre.session, specs[k]);
      o.result.Ok? && Assign(pre.result.value, specs[k].addColumn, o.result.value).Ok? &&
      var placed := Assign(pre.result.value, specs[k].addColumn, o.result.value).value;
      var f := AssembleWith(build, s, a, specs).result.value;
      (|placed.index| > 0 ==> f.index == placed.index) &&
      f.cells[specs[k].addColumn] == if |placed.index| == 0 then Repeat(Null, |f.index|) else placed.cells[specs[k].addColumn]
  {
    AssembleSplit(build, s, a, specs, k);
    AssemblePrefix(build, s, a, specs, k);
    var mid := AssembleWith(build, s, a, specs[..k + 1]);
    AssembleTailKeeps(build, mid.session, mid.result.value, specs, k);
  }

  /** The position of the last mapping that names `c`; -1 when none does. */
  function LastWriter(specs: seq<ColumnSpec>, c: string): (k: int)
    ensures -1 <= k < |specs|
    ensures k == -1 <==> c !in Targets(specs)
    ensures k >= 0 ==> specs[k].addColumn == c && forall j :: k < j < |specs| ==> specs[j].addColumn != c
    decreases |specs|
  {
    if specs == [] then -1
    else if specs[|specs| - 1].addColumn == c then |specs| - 1
    else
      var init := specs[..|specs| - 1];
      assert forall j :: 0 <= j < |init| ==> init[j] == specs[j];
      LastWriter(init, c)
  }

  /** The table `apply_transformations` returns, and the state it leaves. */
  datatype Run = Run(result: Outcome<Frame>, session: Session)

  /** `reindex(columns=order)` and the row check, once every column is assembled. */
  function Conclude(b: Build, order: seq<string>): (r: Run)
    requires b.result.Ok? ==> Aligned(b.result.value)
    ensures r.session == b.session
    ensures b.result.Err? ==> r.result == Err(b.result.error)
    ensures r.result.Ok? ==> b.result.Ok? && r.result.value == Reindex(b.result.value, order)
    ensures r.result.Ok? ==> |r.result.value.rows| == |r.session.data.rows|
  {
    match b.result
    case Err(e) => Run(Err(e), b.session)
    case Ok(a) =>
      var f := Reindex(a, order);
      if |b.session.data.rows| != |f.rows| then Run(Err(RowMismatch(|b.session.data.rows|, |f.rows|)), b.session)
      else Run(Ok(f), b.session)
  }

  /** `apply_transformations(sequence, strict)`. */
  function Apply(ctx: Context, strict: bool, s: Session, specs: seq<ColumnSpec>): (r: Run)
    ensures r.result.Ok? ==> r.result.value.columns == ExpectedOrder(ctx.schema, ctx.table)
    ensures r.result.Ok? ==> |r.result.value.rows| == |r.session.data.rows|
    ensures (forall k :: 0 <= k < |specs| ==> SpecLinkFree(specs[k])) ==> r.session.data == s.data
  {
    Conclude(AddColumns(ctx, strict, s, Assembled([], map[]), specs), ExpectedOrder(ctx.schema, ctx.table))
  }

  /** The declared columns come out in schema order; a target the schema does not declare is dropped. */
  lemma ApplyFollowsSchema(ctx: Context, strict: bool, s: Session, specs: seq<ColumnSpec>)
    requires Apply(ctx, strict, s, specs).result.Ok?
    ensures var f := Apply(ctx, strict, s, specs).result.value;
      f.columns == ExpectedOrder(ctx.schema, ctx.table) &&
      forall i, c :: 0 <= i < |f.rows| && c !in ExpectedOrder(ctx.schema, ctx.table) ==> c !in f.rows[i]
    ensures var f := Apply(ctx, strict, s, specs).result.value;
      forall i, c :: 0 <= i < |f.rows| && c !in Targets(specs) ==> Get(f.rows[i], c) == Null
  {
    var b := AddColumns(ctx, strict, s, Assembled([], map[]), specs);
    assert b.result.value.cells.Keys == Targets(specs);
  }

  /**
   * Once every column is built, the run succeeds exactly when the table has
   * as many rows as the base table then holds; otherwise it raises with both
   * counts.
   */
  lemma ApplyChecksRowCount(ctx: Context, strict: bool, s: Session, specs: seq<ColumnSpec>)
    requires AddColumns(ctx, strict, s, Assembled([], map[]), specs).result.Ok?
    ensures var b := AddColumns(ctx, strict, s, Assembled([], map[]), specs);
      var n, m := |b.session.data.rows|, |b.result.value.index|;
      Apply(ctx, strict, s, specs).result == if n == m then Ok(Reindex(b.result.value, ExpectedOrder(ctx.schema, ctx.table)))
                                              else Err(RowMismatch(n, m))
  {
  }

  /**
   * The last mapping that names a column decides it. With `placed` the
   * table right after that mapping's column was built by `OneColumn` and
   * assigned, the assembled cells are `placed`'s, against labels that have
   * not changed since, or missing throughout when `placed` had no labels yet.
   */
  lemma AddColumnsLastWins(ctx: Context, strict: bool, s: Session, specs: seq<ColumnSpec>, k: nat)
    requires k < |specs|
    requires forall j :: k < j < |specs| ==> specs[j].addColumn != specs[k].addColumn
    requires AddColumns(ctx, strict, s, Assembled([], map[]), specs).result.Ok?
    ensures var pre := AddColumns(ctx, strict, s, Assembled([], map[]), specs[..k]);
      pre.result.Ok? && var o := OneColumn(ctx, strict, pre.session, specs[k]);
      o.result.Ok? && Assign(pre.result.value, specs[k].addColumn, o.result.value).Ok? &&
      var placed := Assign(pre.result.value, specs[k].addColumn, o.result.value).value;
      var b := AddColumns(ctx, strict, s, Assembled([], map[]), specs).result.value;
      (|placed.index| > 0 ==> b.index == placed.index) &&
      b.cells[specs[k].addColumn] == if |placed.index| == 0 then Repeat(Null, |b.index|) else placed.cells[specs[k].addColumn]
  {
    AssembleLastWins(Builder(ctx, strict), s, Assembled([], map[]), specs, k);
  }

  /** `ApplyDeclaredColumn` for any column builder. */
  lemma ConcludeDeclaredColumn(build: ColumnBuilder, s: Session, specs: seq<ColumnSpec>, order: seq<string>, c: string)
    requires c in order && c in Targets(specs)
    requires Conclude(AssembleWith(build, s, Assembled([], map[]), specs), order).result.Ok?
    ensures var k := LastWriter(specs, c);
      var pre := AssembleWith(build, s, Assembled([], map[]), specs[..k]);
      pre.result.Ok? && var o := build(pre.session, specs[k]);
      o.result.Ok? && Assign(pre.result.value, c, o.result.value).Ok? &&
      var placed := Assign(pre.result.value, c, o.result.value).value;
      var f := Conclude(AssembleWith(build, s, Assembled([], map[]), specs), order).result.value;
      (|placed.index| == 0 ==> forall i :: 0 <= i < |f.rows| ==> Get(f.rows[i], c) == Null) &&
      (|placed.index| > 0 ==>
        f.index == placed.index && PlacedCells(f.index, o.result.value, placed.cells[c]) &&
        |placed.cells[c]| == |f.rows| && forall i :: 0 <= i < |f.rows| ==> Get(f.rows[i], c) == placed.cells[c][i])
  {
    AssembleLastWins(build, s, Assembled([], map[]), specs, LastWriter(specs, c));
  }

  /**
   * What a declared column of the result holds. With `k` the last mapping
   * that names it and `placed` the table right after that mapping's column
   * was built by `OneColumn` and assigned, each row holds `placed`'s cell,
   * and the result's labels are `placed`'s, so those cells are the built
   * column lined up with the result's labels. When `placed` had no labels
   * yet, the column is missing throughout.
   */
  lemma ApplyDeclaredColumn(ctx: Context, strict: bool, s: Session, specs: seq<ColumnSpec>, c: string)
    requires c in ExpectedOrder(ctx.schema, ctx.table) && c in Targets(specs)
    requires Apply(ctx, strict, s, specs).result.Ok?
    ensures var k := LastWriter(specs, c);
      var pre := AddColumns(ctx, strict, s, Assembled([], map[]), specs[..k]);
      pre.result.Ok? && var o := OneColumn(ctx, strict, pre.session, specs[k]);
      o.result.Ok? && Assign(pre.result.value, c, o.result.value).Ok? &&
      var placed := Assign(pre.result.value, c, o.result.value).value;
      var f := Apply(ctx, strict, s, specs).result.value;
      (|placed.index| == 0 ==> forall i :: 0 <= i < |f.rows| ==> Get(f.rows[i], c) == Null) &&
      (|placed.index| > 0 ==>
        f.index == placed.index && PlacedCells(f.index, o.result.value, placed.cells[c]) &&
        |placed.cells[c]| == |f.rows| && forall i :: 0 <= i < |f.rows| ==> Get(f.rows[i], c) == placed.cells[c][i])
  {
    ConcludeDeclaredColumn(Builder(ctx, strict), s, specs, ExpectedOrder(ctx.schema, ctx.table), c);
  }

  /**
   * The first mapping fixes the table's labels when its column has values.
   * A first column cut down to fewer rows, as a chain ending in `filter`
   * leaves it, therefore makes the run raise the row mismatch unless the
   * base table has exactly that many rows.
   */
  lemma FirstColumnSetsLabels(ctx: Context, strict: bool, s: Session, specs: seq<ColumnSpec>)
    requires specs != []
    requires var o := OneColumn(ctx, strict, s, specs[0]);
      o.result.Ok? && o.result.value.Rows? && |o.result.value.frame.columns| == 1 &&
      0 < |o.result.value.frame.rows| == |o.result.value.frame.index|
    requires AddColumns(ctx, strict, s, Assembled([], map[]), specs).result.Ok?
    ensures var g := OneColumn(ctx, strict, s, specs[0]).result.value.frame;
      var b := AddColumns(ctx, strict, s, Assembled([], map[]), specs);
      var n := |b.session.data.rows|;
      b.result.value.index == g.index &&
      Apply(ctx, strict, s, specs).result ==
        if n == |g.index| then Ok(Reindex(b.result.value, ExpectedOrder(ctx.schema, ctx.table)))
        else Err(RowMismatch(n, |g.index|))
  {
    var o := OneColumn(ctx, strict, s, specs[0]);
    var placed := Assign(Assembled([], map[]), specs[0].addColumn, o.result.value).value;
    assert placed.index == o.result.value.frame.index;
    AssembleKeepsLabels(Builder(ctx, strict), o.session, placed, specs[1..]);
  }

  /** `LaterColumnAligned` for any column builder. */
  lemma AssembleLaterColumn(build: ColumnBuilder, s: Session, a: Assembled, specs: seq<ColumnSpec>)
    requires Aligned(a) && |a.index| > 0 && specs != []
    requires var o := build(s, specs[0]);
      o.result.Ok? && o.result.value.Rows? && |o.result.value.frame.columns| == 1 &&
      o.result.value.frame.index != a.index && Distinct(o.result.value.frame.index)
    requires forall j :: 0 < j < |specs| ==> specs[j].addColumn != specs[0].addColumn
    requires AssembleWith(build, s, a, specs).result.Ok?
    ensures var g := SoleColumn(build(s, specs[0]).result.value.frame);
      var f := AssembleWith(build, s, a, specs).result.value;
      f.index == a.index &&
      (forall i :: 0 <= i < |a.index| ==> f.cells[specs[0].addColumn][i] == LabelValue(g, a.index[i])) &&
      (forall i :: 0 <= i < |a.index| && a.index[i] !in g.index ==> f.cells[specs[0].addColumn][i] == Null)
  {
    var c := specs[0].addColumn;
    var o := build(s, specs[0]);
    var placed := Assign(a, c, o.result.value).value;
    assert forall j :: 0 <= j < |specs[1..]| ==> specs[1..][j] == specs[j + 1];
    AssembleKeepsColumn(build, o.session, placed, specs[1..], c);
    AssembleKeepsLabels(build, o.session, placed, specs[1..]);
  }

  /**
   * Once the table has labels, a later column on other labels (as a chain
   * ending in `filter` leaves it) is lined up by label: the labels and the
   * row count stay, and a row whose label the column lacks is missing.
   */
  lemma LaterColumnAligned(ctx: Context, strict: bool, s: Session, a: Assembled, specs: seq<ColumnSpec>)
    requires Aligned(a) && |a.index| > 0 && specs != []
    requires var o := OneColumn(ctx, strict, s, specs[0]);
      o.result.Ok? && o.result.value.Rows? && |o.result.value.frame.columns| == 1 &&
      o.result.value.frame.index != a.index && Distinct(o.result.value.frame.index)
    requires forall j :: 0 < j < |specs| ==> specs[j].addColumn != specs[0].addColumn
    requires AddColumns(ctx, strict, s, a, specs).result.Ok?
    ensures var g := SoleColumn(OneColumn(ctx, strict, s, specs[0]).result.value.frame);
      var f := AddColumns(ctx, strict, s, a, specs).result.value;
      f.index == a.index &&
      (forall i :: 0 <= i < |a.index| ==> f.cells[specs[0].addColumn][i] == LabelValue(g, a.index[i])) &&
      (forall i :: 0 <= i < |a.index| && a.index[i] !in g.index ==> f.cells[specs[0].addColumn][i] == Null)
  {
    AssembleLaterColumn(Builder(ctx, strict), s, a, specs);
  }

  /** Without `link` the base table never changes, so the count is checked against the input table. */
  lemma ApplyWithoutLinkKeepsData(ctx: Context, strict: bool, s: Session, specs: seq<ColumnSpec>)
    requires forall k :: 0 <= k < |specs| ==> SpecLinkFree(specs[k])
    ensures Apply(ctx, strict, s, specs).session.data == s.data
    ensures Apply(ctx, strict, s, specs).result.Ok? ==> |Apply(ctx, strict, s, specs).result.value.rows| == |s.data.rows|
  {
  }

  /** In relaxed mode nothing is cast: a built column is the chain's output as is. */
  lemma RelaxedModeSkipsCast(ctx: Context, s: Session, spec: ColumnSpec)
    requires OneColumn(ctx, false, s, spec).result.Ok?
    ensures var steps := StepsOf(spec).value;
      var o := RunChain(ctx, s, Seed(s, steps[0]).value, spec.addColumn, steps);
      o.result.Ok? && OneColumn(ctx, false, s, spec).result == o.result
  {
  }

  /** In strict mode a column the schema does not declare raises once its chain has run. */
  lemma StrictModeNeedsDeclaredType(ctx: Context, s: Session, spec: ColumnSpec)
    requires Declared(ctx.schema, ctx.table, spec.addColumn).None?
    requires StepsOf(spec).Ok? && Seed(s, StepsOf(spec).value[0]).Ok?
    requires RunChain(ctx, s, Seed(s, StepsOf(spec).value[0]).value, spec.addColumn, StepsOf(spec).value).result.Ok?
    ensures OneColumn(ctx, true, s, spec).result == Err(TypeNotDeclared(spec.addColumn))
  {
  }

  /** A single step and a list holding just that step build the same column. */
  lemma SingleIsChainOfOne(ctx: Context, strict: bool, s: Session, column: string, step: Step)
    ensures OneColumn(ctx, strict, s, ColumnSpec(column, Single(step))) == OneColumn(ctx, strict, s, ColumnSpec(column, Chain([step])))
  {
    assert StepsOf(ColumnSpec(column, Single(step))) == StepsOf(ColumnSpec(column, Chain([step])));
  }

  /**
   * The transformer object: the base table (which `link` replaces), the
   * lookup cache and the uuid draws so far; the schema, the table name, the
   * data directories and the services are fixed at construction.
   */
  class Transformer {
    var data: Table
    var lookupCache: map<string, Table>
    var uuidDraws: nat
    const targetSchema: SchemaMap
    const tableName: string
    const store: Store
    const ext: Externals

    constructor (data: Table, targetSchema: SchemaMap, tableName: string, store: Store, ext: Externals)
      ensures this.data == data && lookupCache == map[] && uuidDraws == 0
      ensures this.targetSchema == targetSchema && this.tableName == tableName
      ensures this.store == store && this.ext == ext
    {
      this.data := data;
      this.lookupCache := map[];
      this.uuidDraws := 0;
      this.targetSchema := targetSchema;
      this.tableName := tableName;
      this.store := store;
      this.ext := ext;
    }

    /** The mutable state as a value. */
    function Snapshot(): Session
      reads this
    {
      Session(data, lookupCache, uuidDraws)
    }

    function Ctx(): Context {
      Context(targetSchema, tableName, store, ext)
    }

    /** `_load_lookup_table`: a cached table is returned as is; a loaded one is cached. */
    method LoadLookupTable(name: string) returns (r: Outcome<Table>)
      modifies this
      ensures (r, lookupCache) == LoadLookup(store, old(lookupCache), name)
      ensures data == old(data) && uuidDraws == old(uuidDraws)
    {
      if name in lookupCache {
        return Ok(lookupCache[name]);
      }
      if name !in store.lookups {
        return Err(TableNotFound(name));
      }
      var t := store.lookups[name];
      lookupCache := lookupCache[name := t];
      return Ok(t);
    }

    /** `transform_lookup`, loading through the cache. */
    method TransformLookup(w: Working, step: Step) returns (r: Outcome<Working>)
      requires step.kind.Lookup?
      modifies this
      ensures (r, lookupCache) == LookupStep(store, old(lookupCache), w, step)
      ensures data == old(data) && uuidDraws == old(uuidDraws)
    {
      if step.sourceColumn.None? {
        return Err(MissingParameter("lookup", "source_column"));
      }
      if step.kind.vocabulary.None? {
        return Err(MissingParameter("lookup", "vocabulary"));
      }
      var name := step.kind.vocabulary.value;
      var t := LoadLookupTable(name);
      if t.Err? {
        return Err(t.error);
      }
      var slc, tlc := step.kind.sourceLookupColumn, step.kind.targetLookupColumn;
      if slc.None? || slc.value !in t.value.columns || tlc.None? || tlc.value !in t.value.columns {
        return Err(MissingLookupColumns(name));
      }
      var d := LookupDict(t.value.rows, slc.value, tlc.value);
      var col := TakeColumn(w, "lookup", step.sourceColumn);
      if col.Err? {
        return Err(col.error);
      }
      return Ok(Col(Series(col.value.name, col.value.index, LookupValues(col.value.values, d, step.kind.defaultValue))));
    }

    /** The search for a linked table through the `source`, `lookups` and `target` directories. */
    method FindLinkedTable(name: string) returns (r: Option<Table>)
      ensures r == FindLinked(store, name)
    {
      var dirs := [store.source, store.lookups, store.target];
      var i := 0;
      while i < |dirs|
        invariant 0 <= i <= |dirs|
        invariant forall k :: 0 <= k < i ==> name !in dirs[k]
      {
        if name in dirs[i] {
          assert i > 0 ==> name !in dirs[0];
          assert i > 1 ==> name !in dirs[1];
          return Some(dirs[i][name]);
        }
        i := i + 1;
      }
      assert name !in dirs[0] && name !in dirs[1] && name !in dirs[2];
      return None;
    }

    /** `transform_link`: the merge replaces `self.data`, then its source column is returned. */
    method TransformLink(step: Step) returns (r: Outcome<Working>)
      requires step.kind.Link?
      modifies this
      ensures r == LinkStep(store, old(data), step).result
      ensures data == LinkStep(store, old(data), step).data
      ensures lookupCache == old(lookupCache) && uuidDraws == old(uuidDraws)
    {
      var k := step.kind;
      if k.linkedTable.None? || k.linkedTable.value == "" {
        return Err(MissingParameter("link", "linked_table"));
      }
      if k.linkColumn.None? || k.linkColumn.value == "" {
        return Err(MissingParameter("link", "link_column"));
      }
      if step.sourceColumn.None? {
        return Err(MissingParameter("link", "source_column"));
      }
      var name, lc, src := k.linkedTable.value, k.linkColumn.value, step.sourceColumn.value;
      var linked := FindLinkedTable(name);
      if linked.None? {
        return Err(TableNotFound(name));
      }
      var right := LinkRight(linked.value, lc, src, k.orderBy, k.aggregation);
      if right.Err? {
        return Err(right.error);
      }
      var add, side := right.value.0, right.value.1;
      if lc !in data.columns {
        return Err(ColumnNotFound([lc]));
      }
      var overlap := Without(add, Without(add, data.columns));
      if overlap != [] {
        return Err(DuplicateColumns(overlap));
      }
      data := Table(data.columns + add, MergeRows(data.rows, lc, add, side));
      if src !in data.columns {
        return Err(ColumnNotFound([src]));
      }
      return Ok(Col(Series(Some(src), Range(|data.rows|), ColumnValues(data.rows, src))));
    }

    /** `transform_conditional_map`: the conditions applied one after the other to the result column. */
    method TransformConditionalMap(w: Working, step: Step) returns (r: Outcome<Working>)
      requires step.kind.ConditionalMap?
      ensures r == ConditionalMapSpec(ext, |data.rows|, w, step)
    {
      if step.kind.conditions.None? {
        return Err(MissingParameter("conditional_map", "conditions"));
      }
      var conds := step.kind.conditions.value;
      var init := InitialColumn(ext, step.kind.defaultValue, |data.rows|);
      if init.Err? {
        return Err(init.error);
      }
      var column := init.value;
      var i := 0;
      while i < |conds|
        invariant 0 <= i <= |conds|
        invariant CondFold(init.value, w, conds) == CondFold(column, w, conds[i..])
      {
        var next := ApplyCondition(column, w, conds[i]);
        if next.Err? {
          return Err(next.error);
        }
        assert conds[i..][1..] == conds[i + 1..];
        column := next.value;
        i := i + 1;
      }
      return Ok(Col(Series(None, Range(|data.rows|), column)));
    }

    /** `transform_generate_id`; `uuid` draws one fresh uuid per row. */
    method TransformGenerateId(w: Working, step: Step) returns (r: Outcome<Working>)
      requires step.kind.GenerateId?
      modifies this
      ensures r == GenerateIdStep(ext, old(data), old(uuidDraws), w, step).result
      ensures uuidDraws == old(uuidDraws) + GenerateIdStep(ext, old(data), old(uuidDraws), w, step).used
      ensures data == old(data) && lookupCache == old(lookupCache)
    {
      if step.kind.methodName.GetOr("uuid") != "uuid" {
        return GenerateIdStep(ext, data, uuidDraws, w, step).result;
      }
      var target := IdTarget(data, w);
      var start := uuidDraws;
      var ids: seq<Value> := [];
      while |ids| < target.1
        invariant |ids| <= target.1
        invariant uuidDraws == start + |ids|
        invariant ids == UuidIds(ext, start, |ids|)
        invariant data == old(data) && lookupCache == old(lookupCache)
      {
        ids := ids + [Text(UuidText(Draw128(ext, uuidDraws)))];
        uuidDraws := uuidDraws + 1;
      }
      return Ok(Col(Series(None, target.0, ids)));
    }

    /** One step of a chain, dispatched on its type. */
    method ApplyStep(w: Working, target: string, step: Step) returns (r: Outcome<Working>)
      modifies this
      ensures r == RunStep(Ctx(), old(Snapshot()), w, target, step).result
      ensures Snapshot() == RunStep(Ctx(), old(Snapshot()), w, target, step).session
    {
      match step.kind
      case Lookup(_, _, _, _) =>
        r := TransformLookup(w, step);
      case Link(_, _, _, _) =>
        r := TransformLink(step);
      case ConditionalMap(_, _) =>
        r := TransformConditionalMap(w, step);
      case GenerateId(_) =>
        r := TransformGenerateId(w, step);
      case _ =>
        r := RunStep(Ctx(), Snapshot(), w, target, step).result;
    }

    /** A chain of steps, each one's output the next one's input; the first error stops it. */
    method RunSteps(w: Working, target: string, steps: seq<Step>) returns (r: Outcome<Working>)
      modifies this
      ensures r == RunChain(Ctx(), old(Snapshot()), w, target, steps).result
      ensures Snapshot() == RunChain(Ctx(), old(Snapshot()), w, target, steps).session
    {
      var current := w;
      var j := 0;
      while j < |steps|
        invariant 0 <= j <= |steps|
        invariant RunChain(Ctx(), old(Snapshot()), w, target, steps) == RunChain(Ctx(), Snapshot(), current, target, steps[j..])
      {
        assert steps[j..][0] == steps[j] && steps[j..][1..] == steps[j + 1..];
        var out := ApplyStep(current, target, steps[j]);
        if out.Err? {
          return Err(out.error);
        }
        current := out.value;
        j := j + 1;
      }
      return Ok(current);
    }

    /** One column mapping: its steps from the seed, then the type lookup and the strict cast. */
    method BuildColumn(spec: ColumnSpec, strict: bool) returns (r: Outcome<Working>)
      modifies this
      ensures r == OneColumn(Ctx(), strict, old(Snapshot()), spec).result
      ensures Snapshot() == OneColumn(Ctx(), strict, old(Snapshot()), spec).session
    {
      var steps := StepsOf(spec);
      if steps.Err? {
        return Err(steps.error);
      }
      var seed := Seed(Snapshot(), steps.value[0]);
      if seed.Err? {
        return Err(seed.error);
      }
      var current := RunSteps(seed.value, spec.addColumn, steps.value);
      if current.Err? {
        return current;
      }
      r := Finish(Ctx(), strict, spec.addColumn, current.value);
    }

    /** The loop of `apply_transformations`: every mapping in turn, each finished column stored as it comes. */
    method AssembleColumns(specs: seq<ColumnSpec>, strict: bool) returns (r: Outcome<Assembled>)
      modifies this
      ensures r == AddColumns(Ctx(), strict, old(Snapshot()), Assembled([], map[]), specs).result
      ensures Snapshot() == AddColumns(Ctx(), strict, old(Snapshot()), Assembled([], map[]), specs).session
    {
      var assembled := Assembled([], map[]);
      var i := 0;
      while i < |specs|
        invariant 0 <= i <= |specs|
        invariant Aligned(assembled)
        invariant AddColumns(Ctx(), strict, old(Snapshot()), Assembled([], map[]), specs) ==
                  AddColumns(Ctx(), strict, Snapshot(), assembled, specs[i..])
      {
        assert specs[i..][0] == specs[i] && specs[i..][1..] == specs[i + 1..];
        var column := BuildColumn(specs[i], strict);
        if column.Err? {
          return Err(column.error);
        }
        var next := Assign(assembled, specs[i].addColumn, column.value);
        if next.Err? {
          return Err(next.error);
        }
        assembled := next.value;
        i := i + 1;
      }
      return Ok(assembled);
    }

    /** `apply_transformations`: the columns assembled, then put in schema order and checked against the row count. */
    method ApplyTransformations(specs: seq<ColumnSpec>, strict: bool) returns (r: Outcome<Frame>)
      modifies this
      ensures r == Apply(Ctx(), strict, old(Snapshot()), specs).result
      ensures Snapshot() == Apply(Ctx(), strict, old(Snapshot()), specs).session
    {
      var assembled := AssembleColumns(specs, strict);
      if assembled.Err? {
        return Err(assembled.error);
      }
      var f := Reindex(assembled.value, ExpectedOrder(targetSchema, tableName));
      if |data.rows| != |f.rows| {
        return Err(RowMismatch(|data.rows|, |f.rows|));
      }
      return Ok(f);
    }
  }
}
