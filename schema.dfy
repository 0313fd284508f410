/**
 * The target schema (table -> ordered column declarations), the declared
 * type of a column and the cast of a finished column to that type.
 */
module Schema {
  import opened Wrappers
  import opened Values

  /**
   * One column entry of the schema. `typeName` is its `type` key; `otherKeys`
   * are the other keys present (e.g. `primary_key`). An entry with no key at
   * all is the empty mapping.
   */
  datatype ColumnDecl = ColumnDecl(typeName: Option<string>, otherKeys: set<string>)

  predicate EmptyDecl(d: ColumnDecl) {
    d.typeName.None? && d.otherKeys == {}
  }

  /** A table entry: column names in declaration order, and their entries. */
  datatype TableDecl = TableDecl(order: seq<string>, decls: map<string, ColumnDecl>)

  /** Column names are the mapping's keys: distinct, and exactly the declared ones. */
  type TableSchema = t: TableDecl |
    (forall i, j :: 0 <= i < j < |t.order| ==> t.order[i] != t.order[j]) &&
    (forall c :: c in t.decls <==> c in t.order)
    witness TableDecl([], map[])

  type SchemaMap = map<string, TableSchema>

  /** `schema.get(table, {}).get("columns", {})` as ordered names. */
  function ExpectedOrder(schema: SchemaMap, table: string): (r: seq<string>)
    ensures forall i, j :: 0 <= i < j < |r| ==> r[i] != r[j]
    ensures table !in schema ==> r == []
  {
    if table in schema then schema[table].order else []
  }

  /** The entry for `column` of `table`, if the schema has one. */
  function Declared(schema: SchemaMap, table: string, column: string): (r: Option<ColumnDecl>)
    ensures r.Some? <==> column in ExpectedOrder(schema, table)
  {
    if table in schema && column in schema[table].decls then Some(schema[table].decls[column]) else None
  }

  /**
   * `_get_column_type`: the declared type name. A missing or empty entry is
   * an error in strict mode and "no type" otherwise; a non-empty entry
   * without a `type` key is an error in both modes.
   */
  function GetColumnType(schema: SchemaMap, table: string, column: string, strict: bool): (r: Outcome<Option<string>>)
    ensures (Declared(schema, table, column).Some? && Declared(schema, table, column).value.typeName.Some?) ==>
      r == Ok(Some(Declared(schema, table, column).value.typeName.value))
    ensures (Declared(schema, table, column).None? || EmptyDecl(Declared(schema, table, column).value)) ==>
      r == if strict then Err(TypeNotDeclared(column)) else Ok(None)
    ensures r.Ok? && r.value.None? ==> !strict
  {
    match Declared(schema, table, column)
    case None => if strict then Err(TypeNotDeclared(column)) else Ok(None)
    case Some(d) =>
      if EmptyDecl(d) then (if strict then Err(TypeNotDeclared(column)) else Ok(None))
      else if d.typeName.None? then Err(TypeNotDeclared(column))
      else Ok(Some(d.typeName.value))
  }

  /** The type names `cast_to_type` knows. */
  datatype ColumnType = StringType | IntegerType | FloatType | BooleanType | DateType | DateTimeType

  function LowerChar(c: char): char {
    if 'A' <= c <= 'Z' then (c as int + 32) as char else c
  }

  /** `str.lower()` on the ASCII letters. */
  function Lower(s: string): (r: string)
    ensures |r| == |s|
    ensures forall i :: 0 <= i < |s| ==> r[i] == LowerChar(s[i])
  {
    seq(|s|, i requires 0 <= i < |s| => LowerChar(s[i]))
  }

  lemma LowerIdempotent(s: string)
    ensures Lower(Lower(s)) == Lower(s)
  {
  }

  function ParseType(n: string): (r: Option<ColumnType>)
    ensures r == Some(StringType) <==> n == "string"
    ensures r == Some(IntegerType) <==> n == "integer"
    ensures r == Some(FloatType) <==> n == "float"
    ensures r == Some(BooleanType) <==> n == "boolean"
    ensures r == Some(DateType) <==> n == "date"
    ensures r == Some(DateTimeType) <==> n == "datetime"
  {
    if n == "string" then Some(StringType)
    else if n == "integer" then Some(IntegerType)
    else if n == "float" then Some(FloatType)
    else if n == "boolean" then Some(BooleanType)
    else if n == "date" then Some(DateType)
    else if n == "datetime" then Some(DateTimeType)
    else None
  }

  /**
   * `astype("Int64")` of one cell: integers, booleans and whole floats
   * convert, and text converts when it parses as an integer.
   */
  function ToInt64(ext: Externals, v: Value): (r: Option<Value>)
    ensures r.Some? ==> r.value.Null? || r.value.Int?
    ensures v.Null? || v.Int? ==> r == Some(v)
    ensures v.Text? ==> (r.Some? <==> ext.parseInt(v.s).Some?)
    ensures v.Text? && r.Some? ==> r.value == Int(ext.parseInt(v.s).value)
  {
    match v
    case Null => Some(Null)
    case Int(_) => Some(v)
    case Flag(b) => Some(Int(if b then 1 else 0))
    case Real(x) => if x == x.Floor as real then Some(Int(x.Floor)) else None
    case Text(s) => (match ext.parseInt(s) case Some(i) => Some(Int(i)) case None => None)
    case _ => None
  }

  /**
   * A scalar stored into an `Int64` column (`col[mask] = value`): a missing
   * value, an integer or a whole float; anything else, booleans and text
   * included, raises.
   */
  function SetInt64(v: Value): (r: Option<Value>)
    ensures r.Some? ==> r.value.Null? || r.value.Int?
    ensures v.Null? || v.Int? ==> r == Some(v)
    ensures v.Text? || v.Flag? ==> r.None?
  {
    match v
    case Null => Some(Null)
    case Int(_) => Some(v)
    case Real(x) => if x == x.Floor as real then Some(Int(x.Floor)) else None
    case _ => None
  }

  /** `astype(bool)` of one cell: Python truthiness, a missing float counting as true. */
  function Truthy(v: Value): bool {
    match v
    case Null => true
    case Int(i) => i != 0
    case Real(x) => x != 0.0
    case Text(s) => s != ""
    case Flag(b) => b
    case _ => true
  }

  /** One cell cast to `t`; None when the cast raises. */
  function CastValue(ext: Externals, t: ColumnType, v: Value): (r: Option<Value>)
    ensures t == StringType ==> r.Some? && r.value.Text?
    ensures t == BooleanType ==> r.Some? && r.value.Flag?
    ensures t == DateType ==> r.Some? && (r.value.Null? || r.value.Day?)
    ensures t == DateTimeType ==> r.Some? && (r.value.Null? || r.value.Moment?)
    ensures t == DateType || t == DateTimeType ==> (r == Some(Null) <==> ext.parseTime(v).None?)
    ensures t == DateType && ext.parseTime(v).Some? ==>
      var i := ext.parseTime(v).value; r == Some(Day(i.year, i.month, i.day))
    ensures t == DateTimeType && ext.parseTime(v).Some? ==> r == Some(Moment(ext.parseTime(v).value))
  {
    match t
    case StringType => Some(Text(Stringify(ext, v)))
    case IntegerType => ToInt64(ext, v)
    case FloatType =>
      (match v
       case Null => Some(Null)
       case Int(i) => Some(Real(i as real))
       case Real(_) => Some(v)
       case Flag(b) => Some(Real(if b then 1.0 else 0.0))
       case Text(s) => (match ext.parseFloat(s) case Some(x) => Some(Real(x)) case None => None)
       case _ => None)
    case BooleanType => Some(Flag(Truthy(v)))
    case DateType =>
      (match ext.parseTime(v) case Some(i) => Some(Day(i.year, i.month, i.day)) case None => Some(Null))
    case DateTimeType =>
      (match ext.parseTime(v) case Some(i) => Some(Moment(i)) case None => Some(Null))
  }

  function CastValues(ext: Externals, t: ColumnType, vs: seq<Value>): (r: Option<seq<Value>>)
    ensures r.Some? <==> forall i :: 0 <= i < |vs| ==> CastValue(ext, t, vs[i]).Some?
    ensures r.Some? ==> |r.value| == |vs| && forall i :: 0 <= i < |vs| ==> r.value[i] == CastValue(ext, t, vs[i]).value
  {
    if forall i :: 0 <= i < |vs| ==> CastValue(ext, t, vs[i]).Some? then
      Some(seq(|vs|, i requires 0 <= i < |vs| => CastValue(ext, t, vs[i]).value))
    else None
  }

  /** A frame row cast column by column; every listed column gets a cell. */
  function CastRow(ext: Externals, t: ColumnType, columns: seq<string>, r: Row): (out: Option<Row>)
    ensures out.Some? <==> forall c :: c in columns ==> CastValue(ext, t, Get(r, c)).Some?
    ensures out.Some? ==> forall c :: c in columns ==> c in out.value && out.value[c] == CastValue(ext, t, Get(r, c)).value
  {
    if forall c :: c in columns ==> CastValue(ext, t, Get(r, c)).Some? then
      Some(map c | c in columns :: CastValue(ext, t, Get(r, c)).value)
    else None
  }

  function CastRows(ext: Externals, t: ColumnType, columns: seq<string>, rows: seq<Row>): (r: Option<seq<Row>>)
    ensures r.Some? <==> forall i :: 0 <= i < |rows| ==> CastRow(ext, t, columns, rows[i]).Some?
    ensures r.Some? ==> |r.value| == |rows| && forall i :: 0 <= i < |rows| ==> r.value[i] == CastRow(ext, t, columns, rows[i]).value
  {
    if forall i :: 0 <= i < |rows| ==> CastRow(ext, t, columns, rows[i]).Some? then
      Some(seq(|rows|, i requires 0 <= i < |rows| => CastRow(ext, t, columns, rows[i]).value))
    else None
  }

  /**
   * `cast_to_type`: dispatch on the lower-cased type name. An unknown name,
   * no data, a failing cell, or a date cast of a whole frame raise, each as
   * "error casting to <name>".
   */
  function CastToType(ext: Externals, w: Working, typeName: string): (r: Outcome<Working>)
    ensures r.Err? ==> r.error == CastFailed(Lower(typeName))
    ensures ParseType(Lower(typeName)).None? ==> r.Err?
    ensures w.NoData? ==> r.Err?
    ensures r.Ok? && w.Col? ==>
      r.value.Col? && r.value.series.name == w.series.name &&
      r.value.series.index == w.series.index && |r.value.series.values| == |w.series.values|
    ensures w.Col? && ParseType(Lower(typeName)).Some? ==>
      var t := ParseType(Lower(typeName)).value;
      (r.Ok? <==> forall i :: 0 <= i < |w.series.values| ==> CastValue(ext, t, w.series.values[i]).Some?) &&
      (r.Ok? ==> forall i :: 0 <= i < |w.series.values| ==>
        r.value.series.values[i] == CastValue(ext, t, w.series.values[i]).value)
    ensures r.Ok? && w.Rows? ==>
      r.value.Rows? && r.value.frame.index == w.frame.index &&
      r.value.frame.columns == w.frame.columns && |r.value.frame.rows| == |w.frame.rows|
  {
    var n := Lower(typeName);
    match ParseType(n)
    case None => Err(CastFailed(n))
    case Some(t) =>
      match w
      case NoData => Err(CastFailed(n))
      case Col(s) =>
        (match CastValues(ext, t, s.values)
         case None => Err(CastFailed(n))
         case Some(vs) => Ok(Col(Series(s.name, s.index, vs))))
      case Rows(f) =>
        if t == DateType || t == DateTimeType then Err(CastFailed(n))
        else match CastRows(ext, t, f.columns, f.rows)
          case None => Err(CastFailed(n))
          case Some(rs) => Ok(Rows(Frame(f.index, f.columns, rs)))
  }

  /** Type names match case-insensitively. */
  lemma CastIgnoresCase(ext: Externals, w: Working, typeName: string)
    ensures CastToType(ext, w, typeName) == CastToType(ext, w, Lower(typeName))
  {
    LowerIdempotent(typeName);
  }

  /** Every column casts to string: each cell becomes its text. */
  lemma StringCastSucceeds(ext: Externals, s: Series, typeName: string)
    requires Lower(typeName) == "string"
    ensures CastToType(ext, Col(s), typeName).Ok?
    ensures forall i :: 0 <= i < |s.values| ==>
      CastToType(ext, Col(s), typeName).value.series.values[i] == Text(Stringify(ext, s.values[i]))
  {
  }

  /** An integer column (with missing cells) casts to integer unchanged. */
  lemma IntegerCastKeepsIntegers(ext: Externals, s: Series, typeName: string)
    requires Lower(typeName) == "integer"
    requires forall i :: 0 <= i < |s.values| ==> s.values[i].Null? || s.values[i].Int?
    ensures CastToType(ext, Col(s), typeName) == Ok(Col(s))
  {
    var vs := CastValues(ext, IntegerType, s.values);
    assert vs.Some?;
    assert vs.value == s.values;
  }

  /** A text cell that is not an integer literal makes the integer cast raise. */
  lemma IntegerCastRejectsText(ext: Externals, s: Series, typeName: string, i: nat)
    requires Lower(typeName) == "integer"
    requires i < |s.values| && s.values[i].Text? && ext.parseInt(s.values[i].s).None?
    ensures CastToType(ext, Col(s), typeName) == Err(CastFailed("integer"))
  {
    assert CastValue(ext, IntegerType, s.values[i]).None?;
  }

  /** A text column of integer literals casts to the integers they spell. */
  lemma IntegerCastParsesText(ext: Externals, s: Series, typeName: string)
    requires Lower(typeName) == "integer"
    requires forall i :: 0 <= i < |s.values| ==> s.values[i].Text? && ext.parseInt(s.values[i].s).Some?
    ensures CastToType(ext, Col(s), typeName).Ok?
    ensures forall i :: 0 <= i < |s.values| ==>
      CastToType(ext, Col(s), typeName).value.series.values[i] == Int(ext.parseInt(s.values[i].s).value)
  {
  }

  /** A date cast parses each cell and keeps its day; a cell that does not parse becomes missing. */
  lemma DateCastParsesOrMisses(ext: Externals, s: Series, typeName: string)
    requires Lower(typeName) == "date"
    ensures CastToType(ext, Col(s), typeName).Ok?
    ensures forall i :: 0 <= i < |s.values| ==>
      CastToType(ext, Col(s), typeName).value.series.values[i] ==
        match ext.parseTime(s.values[i])
        case Some(t) => Day(t.year, t.month, t.day)
        case None => Null
  {
  }

  /** A datetime cast parses each cell and keeps its instant; a cell that does not parse becomes missing. */
  lemma DateTimeCastParsesOrMisses(ext: Externals, s: Series, typeName: string)
    requires Lower(typeName) == "datetime"
    ensures CastToType(ext, Col(s), typeName).Ok?
    ensures forall i :: 0 <= i < |s.values| ==>
      CastToType(ext, Col(s), typeName).value.series.values[i] ==
        match ext.parseTime(s.values[i])
        case Some(t) => Moment(t)
        case None => Null
  {
  }

  /** A boolean cast never fails: each cell becomes its truth value. */
  lemma BooleanCastIsTruthiness(ext: Externals, s: Series, typeName: string)
    requires Lower(typeName) == "boolean"
    ensures CastToType(ext, Col(s), typeName).Ok?
    ensures forall i :: 0 <= i < |s.values| ==> CastToType(ext, Col(s), typeName).value.series.values[i] == Flag(Truthy(s.values[i]))
  {
  }
}
