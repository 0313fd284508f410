/**
 * Worked examples from the repository's tests: concrete tables run through
 * the model, with the outcomes those tests expect.
 */
module Scenarios {
  import opened Wrappers
  import opened Values
  import opened Schema
  import opened Grouping
  import opened Steps
  import opened Transform

  /** `number + 1`, on rows whose `number` is an integer. */
  function PlusOne(r: Row): Option<Value> {
    if Get(r, "number").Int? then Some(Int(Get(r, "number").i + 1)) else None
  }

  function NumberRows(): seq<Row> {
    [map["subject_id" := Int(1), "number" := Int(1)], map["subject_id" := Int(2), "number" := Int(2)],
     map["subject_id" := Int(3), "number" := Int(3)], map["subject_id" := Int(4), "number" := Int(4)]]
  }

  function NumberSchema(): SchemaMap {
    map["test_table" := TableDecl(["number_new"], map["number_new" := ColumnDecl(Some("integer"), {})])]
  }

  function DeriveNumber(): Step {
    Step(Derive(Some(PlusOne)), Some("number"), None)
  }

  function NumberSession(): Session {
    Session(Table(["subject_id", "number"], NumberRows()), map[], 0)
  }

  /** The chain's seed: the base table's `number` column as a data frame. */
  lemma NumberSeed()
    ensures Seed(NumberSession(), DeriveNumber()) ==
      Ok(Rows(Frame(Range(4), ["number"], Project(NumberRows(), ["number"]))))
  {
    assert SeedColumns(DeriveNumber()) == Some(["number"]);
  }

  function Ints(xs: seq<int>): (r: seq<Value>)
    ensures |r| == |xs| && forall i :: 0 <= i < |xs| ==> r[i] == Int(xs[i])
  {
    seq(|xs|, i requires 0 <= i < |xs| => Int(xs[i]))
  }

  /** On the data frame, `derive` sees each row's `number`. */
  lemma DeriveOnFrame()
    ensures DeriveStep(Rows(Frame(Range(4), ["number"], Project(NumberRows(), ["number"]))), DeriveNumber()) ==
      Ok(Col(Series(None, Range(4), Ints([2, 3, 4, 5]))))
  {
    var rows := Project(NumberRows(), ["number"]);
    assert forall i :: 0 <= i < 4 ==> Get(rows[i], "number") == Get(NumberRows()[i], "number");
    assert forall i :: 0 <= i < 4 ==> PlusOne(rows[i]) == Some(Ints([2, 3, 4, 5])[i]);
    assert EvalRows(rows, PlusOne).value == Ints([2, 3, 4, 5]);
  }

  /** On the unnamed series, `derive` sees each value as `number`. */
  lemma DeriveOnSeries()
    ensures DeriveStep(Col(Series(None, Range(4), Ints([2, 3, 4, 5]))), DeriveNumber()) ==
      Ok(Col(Series(None, Range(4), Ints([3, 4, 5, 6]))))
  {
    var vals := Ints([2, 3, 4, 5]);
    var r := DeriveStep(Col(Series(None, Range(4), vals)), DeriveNumber());
    assert forall i :: 0 <= i < 4 ==> PlusOne(NumberRow(vals[i])) == Some(Ints([3, 4, 5, 6])[i]);
    assert r.Ok?;
    assert r.value.series.values == Ints([3, 4, 5, 6]);
  }

  /** The two steps chained: the first one's series is the second one's input. */
  lemma NumberChain(ctx: Context)
    ensures RunChain(ctx, NumberSession(), Rows(Frame(Range(4), ["number"], Project(NumberRows(), ["number"]))),
                     "number_new", [DeriveNumber(), DeriveNumber()]) ==
      StepOutcome(Ok(Col(Series(None, Range(4), Ints([3, 4, 5, 6])))), NumberSession())
  {
    var step := DeriveNumber();
    DeriveOnFrame();
    DeriveOnSeries();
    assert [step, step][1..] == [step];
  }

  function NumberSpec(): ColumnSpec {
    ColumnSpec("number_new", Chain([DeriveNumber(), DeriveNumber()]))
  }

  /** The integer cast leaves the chain's integer series as it is. */
  lemma NumberFinish(store: Store, ext: Externals)
    ensures var out := Col(Series(None, Range(4), Ints([3, 4, 5, 6])));
      Finish(Context(NumberSchema(), "test_table", store, ext), true, "number_new", out) == Ok(out)
  {
    IntegerCastKeepsIntegers(ext, Series(None, Range(4), Ints([3, 4, 5, 6])), "integer");
    assert GetColumnType(NumberSchema(), "test_table", "number_new", true) == Ok(Some("integer"));
  }

  /** The mapping's column: the chain's series, which the integer cast leaves as it is. */
  lemma NumberColumn(store: Store, ext: Externals)
    ensures OneColumn(Context(NumberSchema(), "test_table", store, ext), true, NumberSession(), NumberSpec()) ==
      StepOutcome(Ok(Col(Series(None, Range(4), Ints([3, 4, 5, 6])))), NumberSession())
  {
    NumberSeed();
    NumberChain(Context(NumberSchema(), "test_table", store, ext));
    NumberFinish(store, ext);
  }

  /** Storing the column in the empty table adopts the series' labels. */
  lemma NumberAssigned()
    ensures Assign(Assembled([], map[]), "number_new", Col(Series(None, Range(4), Ints([3, 4, 5, 6])))) ==
      Ok(Assembled(Range(4), map["number_new" := Ints([3, 4, 5, 6])]))
  {
    var out := Series(None, Range(4), Ints([3, 4, 5, 6]));
    var vals := AlignSeries(Range(4), out);
    assert vals.Ok? && vals.value == out.values;
  }

  /** The one mapping built into the column table, the session unchanged. */
  lemma NumberBuilt(store: Store, ext: Externals)
    ensures AddColumns(Context(NumberSchema(), "test_table", store, ext), true, NumberSession(), Assembled([], map[]), [NumberSpec()]) ==
      Build(Ok(Assembled(Range(4), map["number_new" := Ints([3, 4, 5, 6])])), NumberSession())
  {
    NumberColumn(store, ext);
    NumberAssigned();
    assert [NumberSpec()][1..] == [];
  }

  /** The column table put in schema order: one column, `number_new`. */
  lemma NumberReindexed()
    ensures var f := Reindex(Assembled(Range(4), map["number_new" := Ints([3, 4, 5, 6])]), ["number_new"]);
      f.columns == ["number_new"] && |f.rows| == 4 && ColumnValues(f.rows, "number_new") == Ints([3, 4, 5, 6])
  {
    var f := Reindex(Assembled(Range(4), map["number_new" := Ints([3, 4, 5, 6])]), ["number_new"]);
    assert ColumnValues(f.rows, "number_new") == Ints([3, 4, 5, 6]);
  }

  /** Two chained `number + 1` steps on 1..4 give 3..6 in the integer column `number_new`. */
  lemma MultistepDerive(store: Store, ext: Externals)
    ensures var run := Apply(Context(NumberSchema(), "test_table", store, ext), true, NumberSession(), [NumberSpec()]);
      run.result.Ok? && run.result.value.columns == ["number_new"] &&
      ColumnValues(run.result.value.rows, "number_new") == Ints([3, 4, 5, 6])
  {
    NumberBuilt(store, ext);
    NumberReindexed();
  }

  /** Three values, element by element. */
  lemma Three(r: seq<Value>, a: Value, b: Value, c: Value)
    requires |r| == 3 && r[0] == a && r[1] == b && r[2] == c
    ensures r == [a, b, c]
  {
  }

  function IcdRows(): seq<Row> {
    [map["icd_code" := Text("I10")], map["icd_code" := Text("E11.9")], map["icd_code" := Text("UNKNOWN")]]
  }

  function IcdToSnomed(): Table {
    Table(["icd_code", "snomed_code"],
      [map["icd_code" := Text("I10"), "snomed_code" := Int(316866)],
       map["icd_code" := Text("E11.9"), "snomed_code" := Int(201826)],
       map["icd_code" := Text("J45"), "snomed_code" := Int(134567)]])
  }

  function IcdLookup(): Step {
    Step(Lookup(Some("icd_to_snomed"), Some("icd_code"), Some("snomed_code"), Int(0)), Some("icd_code"), None)
  }

  /** The lookup dictionary of the cached vocabulary. */
  lemma IcdDictionary()
    ensures LookupDict(IcdToSnomed().rows, "icd_code", "snomed_code") ==
      map[Text("I10") := Int(316866), Text("E11.9") := Int(201826), Text("J45") := Int(134567)]
  {
    var rows := IcdToSnomed().rows;
    assert rows[..2][..1] == [rows[0]];
    assert rows[..2][..1][..0] == [];
  }

  /** That dictionary knows the two codes of the data and not the unknown one. */
  lemma IcdEntries(d: map<Value, Value>)
    requires d == map[Text("I10") := Int(316866), Text("E11.9") := Int(201826), Text("J45") := Int(134567)]
    ensures Text("I10") in d && d[Text("I10")] == Int(316866)
    ensures Text("E11.9") in d && d[Text("E11.9")] == Int(201826)
    ensures Text("UNKNOWN") !in d
  {
    assert |"UNKNOWN"| == 7 && |"I10"| == 3 && |"E11.9"| == 5 && |"J45"| == 3;
    assert "E11.9" != "I10";
  }

  function IcdCodes(): seq<Value> {
    [Text("I10"), Text("E11.9"), Text("UNKNOWN")]
  }

  /** The codes column of the base table. */
  lemma IcdColumn()
    ensures ColumnValues(IcdRows(), "icd_code") == IcdCodes()
  {
    Three(ColumnValues(IcdRows(), "icd_code"), Text("I10"), Text("E11.9"), Text("UNKNOWN"));
  }

  /** The codes looked up in a dictionary that knows the first two: those translated, the unknown one set to the default 0. */
  lemma IcdTranslated(d: map<Value, Value>)
    requires Text("I10") in d && d[Text("I10")] == Int(316866)
    requires Text("E11.9") in d && d[Text("E11.9")] == Int(201826)
    requires Text("UNKNOWN") !in d
    ensures LookupValues(IcdCodes(), d, Int(0)) == [Int(316866), Int(201826), Int(0)]
  {
    var vals := IcdCodes();
    var r := LookupValues(vals, d, Int(0));
    assert vals[0] == Text("I10") && vals[1] == Text("E11.9") && vals[2] == Text("UNKNOWN");
    Three(r, Int(316866), Int(201826), Int(0));
  }

  /** With the vocabulary already cached, codes found map to their SNOMED codes and the unknown one to the default 0. */
  lemma LookupFromCache(store: Store)
    ensures var cache := map["icd_to_snomed" := IcdToSnomed()];
      LookupStep(store, cache, Rows(Frame(Range(3), ["icd_code"], IcdRows())), IcdLookup()) ==
        (Ok(Col(Series(Some("icd_code"), Range(3), [Int(316866), Int(201826), Int(0)]))), cache)
  {
    var cache := map["icd_to_snomed" := IcdToSnomed()];
    LookupCacheHit(store, cache, Frame(Range(3), ["icd_code"], IcdRows()), IcdLookup());
    IcdDictionary();
    IcdEntries(LookupDict(IcdToSnomed().rows, "icd_code", "snomed_code"));
    IcdColumn();
    IcdTranslated(LookupDict(IcdToSnomed().rows, "icd_code", "snomed_code"));
  }

  function Visits(): Table {
    Table(["person_id", "visit_time"],
      [map["person_id" := Int(1), "visit_time" := Text("2023-01-02")],
       map["person_id" := Int(1), "visit_time" := Text("2023-01-01")],
       map["person_id" := Int(2), "visit_time" := Text("2023-01-01")],
       map["person_id" := Int(3), "visit_time" := Text("2023-01-03")],
       map["person_id" := Int(3), "visit_time" := Text("2023-01-04")]])
  }

  function Persons(): Table {
    Table(["person_id"], [map["person_id" := Int(1)], map["person_id" := Int(2)], map["person_id" := Int(3)]])
  }

  function LinkVisits(): Step {
    Step(Link(Some("visits"), Some("person_id"), [], Aggregation(Some("first"))), Some("visit_time"), None)
  }

  function VisitTimes(): seq<Value> {
    [Text("2023-01-02"), Text("2023-01-01"), Text("2023-01-03")]
  }

  /** Each person's first visit time, by person. */
  predicate FirstVisitTimes(picks: map<seq<Value>, Row>) {
    [Int(1)] in picks && Get(picks[[Int(1)]], "visit_time") == Text("2023-01-02") &&
    [Int(2)] in picks && Get(picks[[Int(2)]], "visit_time") == Text("2023-01-01") &&
    [Int(3)] in picks && Get(picks[[Int(3)]], "visit_time") == Text("2023-01-03")
  }

  /** Where each person's visits start: rows 0, 2 and 3. */
  lemma FirstVisitIndices()
    ensures FirstIndexOf(Visits().rows, ["person_id"], [Int(1)]) == Some(0)
    ensures FirstIndexOf(Visits().rows, ["person_id"], [Int(2)]) == Some(2)
    ensures FirstIndexOf(Visits().rows, ["person_id"], [Int(3)]) == Some(3)
  {
    var rows := Visits().rows;
    var keys := ["person_id"];
    assert KeyOf(rows[0], keys) == [Int(1)];
    assert KeyOf(rows[1], keys) == [Int(1)];
    assert KeyOf(rows[2], keys) == [Int(2)];
    assert KeyOf(rows[3], keys) == [Int(3)];
    assert FirstIndexOf(rows[1..][1..], keys, [Int(2)]) == Some(0);
    assert FirstIndexOf(rows[1..], keys, [Int(2)]) == Some(1);
    assert FirstIndexOf(rows[1..][1..][1..], keys, [Int(3)]) == Some(0);
    assert FirstIndexOf(rows[1..][1..], keys, [Int(3)]) == Some(1);
    assert FirstIndexOf(rows[1..], keys, [Int(3)]) == Some(2);
  }

  /** Each person's first visit in file order. */
  lemma FirstVisits()
    ensures FirstVisitTimes(PickFirst(Visits().rows, ["person_id"]))
  {
    var rows := Visits().rows;
    var keys := ["person_id"];
    FirstVisitIndices();
    assert KeyOf(rows[0], keys) == [Int(1)] && KeyOf(rows[2], keys) == [Int(2)] && KeyOf(rows[3], keys) == [Int(3)];
    var picks := PickFirst(rows, keys);
    assert [Int(1)] in picks && picks[[Int(1)]] == rows[0];
    assert [Int(2)] in picks && picks[[Int(2)]] == rows[2];
    assert [Int(3)] in picks && picks[[Int(3)]] == rows[3];
  }

  /** A visits table reduced for the merge: it brings `visit_time`, one first row per person in file order. */
  lemma VisitRight(visits: Table)
    requires visits.columns == ["person_id", "visit_time"]
    ensures LinkRight(visits, "person_id", "visit_time", [], Aggregation(Some("first"))) ==
      Ok((["visit_time"], OnePerKey(PickFirst(visits.rows, ["person_id"]))))
  {
    assert Without(["person_id", "visit_time"], ["person_id"]) == ["visit_time"];
  }

  /** The plan of linking such a visits table to a persons table: the `visit_time` column, one first visit per person. */
  lemma VisitPlan(visits: Table, persons: Table, lookups: map<string, Table>, target: map<string, Table>)
    requires visits.columns == ["person_id", "visit_time"] && persons.columns == ["person_id"]
    ensures PlanLink(Store(map["visits" := visits], lookups, target), persons, LinkVisits()) ==
      Ok(LinkPlan(visits, ["visit_time"], OnePerKey(PickFirst(visits.rows, ["person_id"]))))
  {
    VisitRight(visits);
    assert Without(["visit_time"], persons.columns) == ["visit_time"];
    assert Without(["visit_time"], ["visit_time"]) == [];
  }

  /** The merge brings each person's first visit time onto their row. */
  lemma VisitsMerged(picks: map<seq<Value>, Row>)
    requires FirstVisitTimes(picks)
    ensures ColumnValues(MergeRows(Persons().rows, "person_id", ["visit_time"], OnePerKey(picks)), "visit_time") == VisitTimes()
  {
    var base := Persons().rows;
    var merged := JoinPicked(base, ["person_id"], picks, ["visit_time"]);
    assert KeyOf(base[0], ["person_id"]) == [Int(1)];
    assert KeyOf(base[1], ["person_id"]) == [Int(2)];
    assert KeyOf(base[2], ["person_id"]) == [Int(3)];
    Three(ColumnValues(merged, "visit_time"), Text("2023-01-02"), Text("2023-01-01"), Text("2023-01-03"));
  }

  /** `first` without `order_by` takes each person's first visit in file order. */
  lemma LinkFirstVisit(lookups: map<string, Table>, target: map<string, Table>)
    ensures var o := LinkStep(Store(map["visits" := Visits()], lookups, target), Persons(), LinkVisits());
      o.result.Ok? && |o.data.rows| == 3 &&
      o.result.value.series.values == VisitTimes()
  {
    VisitPlan(Visits(), Persons(), lookups, target);
    FirstVisits();
    VisitsMerged(PickFirst(Visits().rows, ["person_id"]));
  }
}
