/** `validate_schema`: a loaded table against the columns its schema declares. */
module Pipeline {
  import opened Values
  import opened Schema
  import opened Transform

  /** Missing declared columns raise; otherwise the check passes, listing the undeclared columns it warns about. */
  datatype SchemaCheck = Missing(columns: seq<string>) | Passed(extra: seq<string>)

  /**
   * `validate_schema(data, schema, table_name)`: the declared columns the
   * data lacks, in schema order, make it raise; the data's columns the
   * schema does not declare, in data order, only produce a warning.
   */
  function ValidateSchema(data: Frame, schema: SchemaMap, table: string): (r: SchemaCheck)
    ensures r.Missing? <==> exists c :: c in ExpectedOrder(schema, table) && c !in data.columns
    ensures r.Missing? ==> forall c :: c in r.columns <==> c in ExpectedOrder(schema, table) && c !in data.columns
    ensures r.Passed? ==> forall c :: c in r.extra <==> c in data.columns && c !in ExpectedOrder(schema, table)
  {
    var expected := ExpectedOrder(schema, table);
    var missing := Absent(expected, data.columns);
    if missing != [] then
      assert missing[0] in missing;
      Missing(missing)
    else Passed(Absent(data.columns, expected))
  }

  /** The missing columns are reported in the order the schema declares them, and the extra ones in data order. */
  lemma ValidateSchemaKeepsOrder(data: Frame, schema: SchemaMap, table: string)
    ensures var r := ValidateSchema(data, schema, table);
      (r.Missing? ==> Subsequence(r.columns, ExpectedOrder(schema, table))) &&
      (r.Passed? ==> Subsequence(r.extra, data.columns))
  {
    AbsentKeepsOrder(ExpectedOrder(schema, table), data.columns);
    AbsentKeepsOrder(data.columns, ExpectedOrder(schema, table));
  }

  /** Extra columns never make the check fail: it passes whenever every declared column is present. */
  lemma ExtraColumnsOnlyWarn(data: Frame, schema: SchemaMap, table: string, more: seq<string>)
    requires forall c :: c in ExpectedOrder(schema, table) ==> c in data.columns
    ensures ValidateSchema(data, schema, table).Passed?
    ensures ValidateSchema(data.(columns := data.columns + more), schema, table).Passed?
  {
  }

  /** A table with exactly the declared columns, in any order, passes without warnings. */
  lemma ExactColumnsPass(data: Frame, schema: SchemaMap, table: string)
    requires forall c :: c in data.columns <==> c in ExpectedOrder(schema, table)
    ensures ValidateSchema(data, schema, table) == Passed([])
  {
    AbsentCovered(ExpectedOrder(schema, table), data.columns);
    AbsentCovered(data.columns, ExpectedOrder(schema, table));
  }

  /** What `apply_transformations` returns always passes `validate_schema` against the same schema, with no warning. */
  lemma TransformedTablePasses(ctx: Context, strict: bool, s: Session, specs: seq<ColumnSpec>)
    requires Apply(ctx, strict, s, specs).result.Ok?
    ensures ValidateSchema(Apply(ctx, strict, s, specs).result.value, ctx.schema, ctx.table) == Passed([])
  {
    ExactColumnsPass(Apply(ctx, strict, s, specs).result.value, ctx.schema, ctx.table);
  }
}
