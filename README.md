# omopetl transformation engine, modelled in Dafny

This project models the core of omopetl, an ETL tool that turns source
tables into OMOP-CDM target tables. The core is the `Transformer` of
`omopetl/transform.py` and the `validate_schema` check of
`omopetl/pipeline.py`.

For each column mapping, the transformer does the following:
- it seeds a working value from the base table;
- it runs a chain of typed steps over it (`copy`, `map`, `lookup`, `link`, `aggregate`, `normalize_date`, `concatenate`, `default`, `conditional_map`, `filter`, `derive`, `generate_id`);
- it looks up the target column's declared type and, in strict mode, casts the result;
- it stores the column in the output table.

Once every mapping is done, the columns are put in the schema's order and the row count is checked against the base table.

The project has these modules:
- `Values`: cells (`Value`, where `Null` is pandas' missing value), rows, tables, frames with row labels, series, the working data (`Working`), the error taxonomy, and the external services (`Externals`).
- `Ordering`: `sort_values`, written as a stable sort on an encoding of the cells.
- `Grouping`: `groupby(...).first()`, `.last()` and the most frequent value, plus the left merges.
- `Schema`: `_get_column_type` and `cast_to_type`.
- `Steps`: every step as a pure function of the working data and the transformer state.
- `Transform`:
  - the `apply_transformations` specification (`Apply`);
  - the `Transformer` class (base table, lookup cache, uuid draws), whose methods update those fields and are proved equal to the specification.
- `Pipeline`: `validate_schema`.
- `Scenarios`: fixtures from the repository's tests, evaluated through the model.

Pandas behaviour lies behind every step, and the model writes that behaviour out directly:
- label alignment on column assignment;
- `groupby` dropping keys with a missing part;
- a left merge repeating a base row once per match;
- `.map` giving a missing value for an unmapped key.

Parsing, formatting, hashing and random draws are parameters of the model.

## Model

| member | source | states |
|---|---|---|
| Transform.Transformer.ApplyTransformations | omopetl/transform.py:85-151 | The returned table and the new state (base table, lookup cache, uuid draws) are exactly those of `Apply` on the old state. |
| Transform.Transformer.AssembleColumns | omopetl/transform.py:97-142 | The loop over the mappings gives exactly the assembled columns and the new state of `AddColumns` from an empty table; the first failing mapping stops it. |
| Transform.Transformer.BuildColumn | omopetl/transform.py:97-139 | One mapping's column and the new state are those of `OneColumn`: the seed, then the chain, then the type lookup and the strict cast. |
| Transform.Transformer.RunSteps | omopetl/transform.py:122-132 | Running the chain in a loop gives the result and state of `RunChain`: each step's output is the next step's input, and the first error stops the chain. |
| Transform.Transformer.ApplyStep | omopetl/transform.py:124-132 | Dispatching one step on its type gives the result and state of `RunStep`. |
| Transform.Transformer.LoadLookupTable | omopetl/transform.py:57-83 | A cached table is returned with the cache unchanged. A stored table is returned and added to the cache. A missing table raises. The base table and the uuid draws are unchanged. |
| Transform.Transformer.TransformLookup | omopetl/transform.py:335-375 | The result and the cache after the load are those of `LookupStep`, and nothing else changes. |
| Transform.Transformer.FindLinkedTable | omopetl/transform.py:219-232 | The loop over `source`, `lookups`, `target` returns the table of the first directory holding the name, exactly as `FindLinked` does. |
| Transform.Transformer.TransformLink | omopetl/transform.py:194-273 | The merged table replaces the base table, and the result is `LinkStep`'s. The cache and the draws are unchanged. |
| Transform.Transformer.TransformConditionalMap | omopetl/transform.py:416-440 | The loop over the conditions gives `ConditionalMapSpec` of the base table's row count. |
| Transform.Transformer.TransformGenerateId | omopetl/transform.py:476-519 | The result is `GenerateIdStep`'s. The uuid counter advances by one per generated uuid. The base table and the cache are unchanged. |
| Transform.Transformer.constructor | omopetl/transform.py:11-27 | It stores the data, schema and table name, and starts with an empty lookup cache and no draws. |
| Transform.Apply | omopetl/transform.py:85-151 | A successful run yields exactly the schema's declared columns, in declaration order, with as many rows as the base table. Without `link` steps the base table is left as it was. |
| Transform.Conclude | omopetl/transform.py:144-151 | After assembly, an error is passed on. Otherwise the table is reindexed to the schema order and returned iff its row count is the base table's. The state is not touched. |
| Transform.ConcludeDeclaredColumn | omopetl/transform.py:97-151 | `ApplyDeclaredColumn` for any column builder. |
| Transform.ApplyDeclaredColumn | omopetl/transform.py:97-151 | In a successful run, a declared column that some mapping names holds, row by row, the column the last such mapping built, aligned to the final labels (an all-missing column for no data). It is missing throughout when that mapping found the table without labels. |
| Transform.FirstColumnSetsLabels | omopetl/transform.py:142-149 | A first mapping giving a one-column frame with rows fixes the table's labels. So a first chain ending in `filter` that leaves k rows makes the run raise the row mismatch (n, k) unless the base table has k rows. |
| Transform.AssembleLaterColumn | omopetl/transform.py:142 | `LaterColumnAligned` for any column builder. |
| Transform.LaterColumnAligned | omopetl/transform.py:142 | A later mapping giving a frame on other labels, as a chain ending in `filter` leaves it, is aligned by label: the table keeps its labels and row count, and a row whose label the frame lacks is missing. |
| Transform.ApplyChecksRowCount | omopetl/transform.py:144-149 | Once all columns are built, the run succeeds iff the assembled table has as many rows as the base table now holds. The success value is the table reindexed to the schema order; otherwise the error is the row mismatch with both counts. |
| Transform.ApplyFollowsSchema | omopetl/transform.py:144-146 | Output columns are the schema's, in order. Cells of undeclared targets are dropped, and declared columns that no mapping produces are missing in every row. |
| Transform.ApplyWithoutLinkKeepsData | omopetl/transform.py:174-180 | Without `link`, the base table is unchanged, and a successful output has its row count. |
| Transform.RelaxedModeSkipsCast | omopetl/transform.py:134-139 | In non-strict mode a built column is the chain's output, uncast. |
| Transform.StrictModeNeedsDeclaredType | omopetl/transform.py:135 | In strict mode a target column missing from the schema raises, even after its chain succeeded. |
| Transform.SingleIsChainOfOne | omopetl/transform.py:101-105 | A single step dict and a one-element list of it build the same column. |
| Transform.StepsOf | omopetl/transform.py:101-110 | A dict becomes a one-step list and a non-empty list is kept. Anything else, including an empty list, raises "invalid transformations". |
| Transform.Seed | omopetl/transform.py:112-120 | A chain starting with `link`, or one with no first source column, gets no data. Otherwise the seed is the base table's `source_columns` (or `[source_column]`) with the base labels, cell for cell. Absent columns raise, naming them. |
| Transform.RunStep | omopetl/transform.py:124-132 | Only `link` changes the base table, only `lookup` changes the cache, and only `generate_id` draws uuids. No cached table is lost. An unknown type raises "unsupported transformation type". |
| Transform.RunChain | omopetl/transform.py:122-132 | A chain without `link` leaves the base table unchanged, and the draw count never decreases. |
| Transform.ChainAppend | omopetl/transform.py:122-132 | Running `a + b` is running `a`, then `b` on its output and state. If `a` fails, `b` does not run. |
| Transform.ChainStopsAtError | omopetl/transform.py:122-132 | After a failing step, the steps that follow do not run. |
| Transform.Finish | omopetl/transform.py:134-139 | The type lookup always runs. In non-strict mode the data passes through uncast. In strict mode the result is `cast_to_type` with the declared type, and an undeclared column raises. |
| Transform.OneColumn | omopetl/transform.py:97-139 | A built column is `Finish` of the chain's output from the seed. Malformed transformations raise before anything runs. Without `link` the base table is unchanged. |
| Transform.AlignSeries | omopetl/transform.py:142 | When the labels are the same, values are placed by position. Otherwise they are placed by label, with a missing value where the series lacks the label, and duplicate series labels raise. |
| Transform.AlignByPositionIsByLabel | omopetl/transform.py:142 | With distinct labels, positional placement and label placement agree. |
| Transform.AssignSeries | omopetl/transform.py:142 | `transformed_data[c] = series`. An empty table adopts a non-empty series' labels. Otherwise the table's labels stay and other columns are untouched. |
| Transform.Assign | omopetl/transform.py:142 | No data gives an all-missing column. A series is aligned to the resulting labels. A one-column frame is aligned as its single column, and any other frame raises. A table with labels keeps them and its other columns; an empty table adopting labels leaves its other columns missing. |
| Transform.Reindex | omopetl/transform.py:145-146 | Columns come out in exactly the schema order. Assembled cells are kept, other declared columns are missing, and undeclared columns are dropped. |
| Transform.AddColumns | omopetl/transform.py:97-142 | On success, every target column is assembled and aligned to the labels. Without `link` the base table is unchanged. |
| Transform.AssembleWith | omopetl/transform.py:97-142 | The mappings run in order, each column built and assigned in turn; the first error stops the run. A successful run is aligned and holds exactly the earlier columns and the targets. |
| Transform.AssembleKeepsData | omopetl/transform.py:97-142 | Without `link`, assembling the columns never replaces the base table. |
| Transform.AssembleKeepsLabels | omopetl/transform.py:142 | Once the table has labels, later assignments never change them. |
| Transform.AssembleKeepsColumn | omopetl/transform.py:97-142 | A column no later mapping names keeps its cells, or is missing throughout when the table had no labels yet. |
| Transform.AssembleAppend | omopetl/transform.py:97-142 | Running mappings `p + q` is running `p`, then `q` from its table and state; an error in `p` stops the run. |
| Transform.AssembleSplit | omopetl/transform.py:97-142 | The whole run continues the run of the first `k + 1` mappings from its table and state. |
| Transform.AssemblePrefix | omopetl/transform.py:97-142 | The run of the first `k + 1` mappings is that of the first `k`, then mapping `k` built and assigned. |
| Transform.AssembleTailKeeps | omopetl/transform.py:97-142 | The mappings after `k`, none naming its column, leave that column and the labels alone. |
| Transform.AssembleLastWins | omopetl/transform.py:97-142 | The last mapping naming a column decides it: the final cells are those it assigned, against labels unchanged since, or missing throughout when the table then had no labels. |
| Transform.AddColumnsLastWins | omopetl/transform.py:97-142 | `AssembleLastWins` for the transformer's own columns: the cells of a target are its last mapping's built column, aligned. |
| Transform.LastWriter | omopetl/transform.py:98 | The position of the last mapping naming a column; -1 iff no mapping names it. |
| Transform.SoleColumn | omopetl/transform.py:142 | The single column of a one-column frame, with the frame's labels and its cells. |
| Transform.Targets | omopetl/transform.py:98 | This is exactly the set of `add_column` names. |
| Schema.GetColumnType | omopetl/transform.py:29-55 | A declared `type` is returned. A missing or empty entry raises in strict mode and gives no type otherwise. A non-empty entry without `type` raises in both modes. |
| Schema.ExpectedOrder | omopetl/transform.py:145 | The declared column names, distinct, in declaration order. An unknown table has none. |
| Schema.CastToType | omopetl/transform.py:153-172 | The name is matched lower-cased. An unknown name, no data, or a failing cell raises "error casting to <name>". A cast keeps the name, labels and length. A series cast succeeds iff every cell casts, and cell i is cell i cast. |
| Schema.DateCastParsesOrMisses | omopetl/transform.py:165-166 | The `date` cast never fails: each cell becomes the day it parses to, or missing when it does not parse. |
| Schema.DateTimeCastParsesOrMisses | omopetl/transform.py:167-168 | The `datetime` cast never fails: each cell becomes the instant it parses to, or missing when it does not parse. |
| Schema.BooleanCastIsTruthiness | omopetl/transform.py:163-164 | The `boolean` cast never fails: each cell becomes its truth value. |
| Schema.CastIgnoresCase | omopetl/transform.py:156 | Type names match case-insensitively. |
| Schema.StringCastSucceeds | omopetl/transform.py:157-158 | The string cast never fails, and each cell becomes its `str`. |
| Schema.IntegerCastKeepsIntegers | omopetl/transform.py:159-160 | An integer column with missing cells casts to `Int64` unchanged. |
| Schema.IntegerCastRejectsText | omopetl/transform.py:159-160 | One text cell that `int()` cannot parse makes the integer cast raise. |
| Schema.IntegerCastParsesText | omopetl/transform.py:159-160 | A column of integer texts casts to `Int64`, each cell becoming the integer its text spells. |
| Schema.SetInt64 | omopetl/transform.py:438 | Storing a value into an `Int64` column: integers and missing values are kept, whole reals become integers, and text or booleans raise. |
| Schema.CastValue | omopetl/transform.py:157-168 | Casts to string, bool and date/datetime never fail. A date or datetime cast is missing iff the value does not parse (`errors="coerce"`); otherwise it is the parsed day, or the parsed instant. |
| Schema.ToInt64 | omopetl/transform.py:160 | Integers and missing values are kept. Text goes through `int()`: parsed text becomes that integer, and any other text raises. The result is integer or missing. |
| Steps.CopyStep | omopetl/transform.py:189-192 | It succeeds iff the working data is a frame holding `source_column`. The result is that column with the frame's labels. A missing key raises. |
| Steps.MapStep | omopetl/transform.py:183-187 | A missing `values` raises. The result keeps the frame's labels. |
| Steps.MapValues | omopetl/transform.py:187 | Each value goes through the dictionary, and an unmapped value becomes missing. |
| Steps.MapElementwise | omopetl/transform.py:187 | Row i of the result is row i's source value through the dictionary, or missing. |
| Steps.MapIdentityIsCopy | omopetl/transform.py:183-192 | A dictionary mapping every occurring value to itself makes `map` equal to `copy`. |
| Steps.LoadLookup | omopetl/transform.py:57-83 | A cache hit returns the cached table with the cache unchanged. A stored table is returned and cached. An absent one raises "not found". |
| Steps.LoadLookupCaches | omopetl/transform.py:68-69 | A second load of a loaded table hits the cache and changes nothing, and no cached entry is ever lost. |
| Steps.LookupDict | omopetl/transform.py:364 | `set_index(...).to_dict()`. A key is present iff some row holds it, and it maps to the target cell of the last such row. |
| Steps.LookupValues | omopetl/transform.py:365-369 | A found non-missing value is translated. Anything else becomes `default_value`. |
| Steps.LookupStep | omopetl/transform.py:335-375 | The result keeps the frame's labels and row count. Cached tables stay, and the cache is untouched when a required key is missing. |
| Steps.LookupCacheHit | omopetl/transform.py:335-375 | With the vocabulary cached and both lookup columns present, the store is not read, the cache is unchanged, and the result is the source column looked up in the cached table, with the frame's labels. |
| Steps.LookupElementwise | omopetl/transform.py:364-369 | Row i gets the target value of the last lookup row holding its source value, or `default_value` when there is none or it is missing. |
| Steps.LookupNeedsBothColumns | omopetl/transform.py:357-361 | A lookup table lacking either lookup column raises "missing required columns". |
| Steps.NormalizeDateStep | omopetl/transform.py:377-381 | Each cell is parsed and formatted with `format` (default `%Y-%m-%d`). An unparsable cell becomes missing. Labels and length are kept. |
| Steps.ConcatenateStep | omopetl/transform.py:383-399 | Missing or empty `source_columns` raises. Otherwise each row gives the `str` of its cells joined by `separator` (default `-`). Absent columns raise. |
| Steps.DefaultStep | omopetl/transform.py:401-414 | The value is repeated on every base-table row, with the base labels. A missing `value` raises. |
| Steps.EvalRows | omopetl/transform.py:437 | A condition (`eval` in `conditional_map`) or a formula (`eval` in `derive`) is applied to every row, in order, and it raises iff it raises on some row. |
| Steps.AlignMask | omopetl/transform.py:438 | The mask is read at the result's labels 0..n-1. It fails iff some label is missing from the mask. |
| Steps.ApplyConditionCell | omopetl/transform.py:434-438 | One condition overwrites exactly the rows it selects with its value as `Int64`, and leaves the others. |
| Steps.CondFoldUnmatched | omopetl/transform.py:433-438 | A row that no condition selects keeps its default. |
| Steps.CondFoldLastWins | omopetl/transform.py:433-438 | A row selected by condition k and by no later one gets condition k's value, so the last match wins. |
| Steps.InitialColumn | omopetl/transform.py:431 | The `Int64` column of the default on every row. A non-integer default raises. |
| Steps.ConditionalMapSpec | omopetl/transform.py:416-440 | Missing `conditions` raises. The result carries the base table's labels and one value per base row, and its values are the conditions folded, in order, over the `Int64` default column. |
| Steps.ConditionalMapRow | omopetl/transform.py:431-438 | Row i gets the value of the last condition selecting it, as `Int64`, or the default when no condition selects it. |
| Steps.ToFrame | omopetl/transform.py:459-460 | `to_frame()` gives one column holding the series' values, with its labels. |
| Steps.KeepRows | omopetl/transform.py:463 | `query`: rows and labels left out by the predicate are dropped, order is kept, and every kept row satisfies it. All rows are kept iff all satisfy it. |
| Steps.AcceptedFrom | omopetl/transform.py:463 | The positions, from a start on, of the rows the predicate accepts; each lies in range. |
| Steps.AcceptedIncreasing | omopetl/transform.py:463 | The accepted positions are strictly increasing. |
| Steps.AcceptedExactly | omopetl/transform.py:463 | A position is listed iff the predicate accepts its row. |
| Steps.KeepRowsSelects | omopetl/transform.py:463 | The j-th kept row and its label are the row and label at the j-th accepted position, so no accepted row is lost and labels stay paired with their rows. |
| Steps.FilterStep | omopetl/transform.py:442-463 | A missing condition raises, no data raises, and the result is a frame. |
| Steps.FilterKeepsMatchingRows | omopetl/transform.py:442-463 | `filter` on a frame keeps exactly the accepted rows, in order, each with its own label, and the columns are unchanged. |
| Steps.FilterKeepsMatchingValues | omopetl/transform.py:457-463 | `filter` on a series filters its `to_frame()`: the kept values are exactly the accepted ones, in order, each with its own label. |
| Steps.DeriveStep | omopetl/transform.py:465-474 | On a frame the formula sees each row. On a series it sees each value as `number`. Labels are kept, and no data raises. |
| Steps.IdTarget | omopetl/transform.py:497-502 | With no working data, the base table's labels and row count are used. |
| Steps.UuidIds | omopetl/transform.py:504-505 | One uuid string per row: 36 characters, with dashes at positions 8 and 23. |
| Steps.UuidIdsDistinct | omopetl/transform.py:504-505 | Different 128-bit draws give different uuid strings. |
| Steps.Counting | omopetl/transform.py:507-508 | 1..n in order. |
| Steps.HashIds | omopetl/transform.py:516 | 64-character digests. Equal `str` texts give equal ids. |
| Steps.GenerateIdStep | omopetl/transform.py:476-519 | A `uuid` run (the default) uses one draw per row, and other methods use none. The result is a column. |
| Steps.IncrementalNumbersRows | omopetl/transform.py:507-508 | `incremental` numbers the rows 1..N over the working data's labels. |
| Steps.UuidPerRow | omopetl/transform.py:504-505 | `uuid` gives each row the text of its own fresh draw. |
| Steps.HashIsDeterministic | omopetl/transform.py:510-516 | Two rows with the same `str` of the source cell get the same SHA-256 hex id. |
| Steps.IdErrors | omopetl/transform.py:510-519 | `hash` without `source_column` raises, `hash` on an absent column raises, and an unknown method raises. |
| Steps.FindLinked | omopetl/transform.py:219-232 | The first of `source`, `lookups`, `target` holding the table wins. The search fails iff none does. |
| Steps.SortedFor | omopetl/transform.py:245-246 | `sort_values(order_by)` only reorders the rows, and the result is sorted when `order_by` is given. |
| Steps.ModePicks | omopetl/transform.py:248-253 | One row per non-missing key, holding the group's most frequent value. A group with no value raises. |
| Steps.Picks | omopetl/transform.py:254-259 | Dispatch to first, last or most frequent; any other name raises "unknown aggregation method". |
| Steps.AggregatedRight | omopetl/transform.py:239-259 | The unknown method raises first. `first` and `last` bring all non-key columns from the picked row per key. `most_frequent` brings only the source column. |
| Steps.LinkRight | omopetl/transform.py:239-261 | Without aggregation, it succeeds iff both columns exist and brings every linked row. With aggregation, the rows are sorted by `order_by` and then aggregated. |
| Steps.PlanLink | omopetl/transform.py:206-270 | Missing `linked_table` or `link_column` raises. A found table is the search's. The link column must be in the base table, and added names never collide with base columns, because the empty suffixes forbid that. |
| Steps.MergeRows | omopetl/transform.py:264-270 | A merge against per-key picks keeps the row count, and no merge has fewer rows than the base; the rows themselves are stated by `Grouping.JoinPicked`, `Grouping.JoinOne` and `Grouping.JoinAllUnique`. |
| Steps.LinkStep | omopetl/transform.py:194-273 | Errors before the merge leave the base table. Otherwise it becomes the merge, and its `source_column` is returned with the new labels; an absent source column raises after the replacement. |
| Steps.LinkAggregatedKeepsRows | omopetl/transform.py:239-273 | With aggregation every base row is kept once, in order, with its cells. The returned column is each row's pick for its key, or missing. |
| Steps.LinkFirstIsEarliest | omopetl/transform.py:244-255 | With `first` after `order_by`, a matched row gets the source value of a linked row of its key that no other row of the key sorts before. |
| Steps.LinkUnaggregatedRowCount | omopetl/transform.py:260-270 | Without aggregation the row count is kept iff no key matches twice; a key matching twice adds rows. |
| Steps.LinkUnaggregatedRows | omopetl/transform.py:260-270 | Without aggregation and with at most one linked row per key, row i of the new base table is base row i widened by its match, or by missing values. |
| Steps.AggregateStep | omopetl/transform.py:275-333 | Missing `source_columns` or `group_by` raises. The result has one value per row with labels 0..n-1, and each row gets its group's pick of `target`. |
| Steps.MergePicked | omopetl/transform.py:325-333 | A target the frame lacks raises. Otherwise the result has one value per row with labels 0..n-1, and a target outside the group keys gets, in each row, the picked row's value for that row's key, or missing when the key has no pick. |
| Steps.AggregateFirstIsEarliest | omopetl/transform.py:308-315 | With `first` after `order_by`, each row gets the target value of a row of its group that sorts first. |
| Steps.AggregateNullKey | omopetl/transform.py:309-333 | A row whose group key has a missing part gets a missing value. |
| Steps.AggregateUnknownMethod | omopetl/transform.py:322-323 | An unknown method raises "unsupported aggregation method". |
| Steps.AggregateMissingColumns | omopetl/transform.py:302-305 | Listed source columns the frame lacks raise, naming them. |
| Grouping.PickFirst | omopetl/transform.py:255 | One entry per key that occurs and has no missing part, holding its first row. |
| Grouping.PickFirstAt | omopetl/transform.py:255 | A row whose complete key no earlier row has is exactly the `first` pick for that key. |
| Grouping.PickLast | omopetl/transform.py:257 | One entry per key that occurs and has no missing part, holding its last row. |
| Grouping.ModeOf | omopetl/transform.py:251 | `value_counts().idxmax()`: a non-missing value of maximal count. It fails iff every value is missing. |
| Grouping.SortedFirstIsLeast | omopetl/transform.py:245-255 | After the sort, no row of a group sorts before the group's `first` pick. |
| Grouping.SortedLastIsGreatest | omopetl/transform.py:245-257 | After the sort, no row of a group sorts after the group's `last` pick. |
| Grouping.JoinPicked | omopetl/transform.py:264-270 | A left merge against one pick per key: base rows are kept in order, widened by the pick's cells, or by missing values when there is none. |
| Grouping.JoinAllKeepsCount | omopetl/transform.py:261-270 | A left merge keeps the row count when no key matches twice. |
| Grouping.JoinAllRepeats | omopetl/transform.py:261-270 | A base row matching two linked rows comes out more than once. |
| Grouping.Matching | omopetl/transform.py:264-270 | The linked rows with a given key, in their order: a row is included iff it has the key. |
| Grouping.JoinOne | omopetl/transform.py:264-270 | One base row gives one row per match, in match order, each widened by that match; with no match it gives itself widened by missing values. |
| Grouping.JoinAllAppend | omopetl/transform.py:264-270 | Merging `a + b` is merging `a`, then `b`: base order is kept. |
| Grouping.JoinedRows | omopetl/transform.py:264-270 | Row i is base row i widened by its first match, or by missing values. |
| Grouping.JoinOneUnique | omopetl/transform.py:264-270 | A base row with at most one match gives exactly one row. |
| Grouping.JoinAllUnique | omopetl/transform.py:261-270 | With at most one linked row per key, the merge is the base rows one by one, each widened by its match or by missing values. |
| Ordering.SortRowsPermutes | omopetl/transform.py:246 | The sort keeps every row as often as before. |
| Ordering.SortRowsSorted | omopetl/transform.py:246 | The sorted rows are in `order_by` order. |
| Values.UuidTextInjective | omopetl/transform.py:505 | `str(uuid)` is injective on 128-bit values. |
| Values.Absent | omopetl/pipeline.py:76 | The wanted names missing from `have`, in `wanted` order. |
| Pipeline.ValidateSchema | omopetl/pipeline.py:61-82 | It fails iff some declared column is missing, and it lists exactly those. Otherwise it passes and lists exactly the undeclared data columns as warnings. |
| Pipeline.ValidateSchemaKeepsOrder | omopetl/pipeline.py:76-82 | Missing columns are listed in schema order, and extra columns in data order. |
| Pipeline.ExtraColumnsOnlyWarn | omopetl/pipeline.py:80-82 | Extra columns never make the check fail. |
| Pipeline.ExactColumnsPass | omopetl/pipeline.py:73-82 | Data holding exactly the declared columns, in any order, passes with no missing column and no warning. |
| Pipeline.TransformedTablePasses | omopetl/pipeline.py:61-82 | What `apply_transformations` returns always passes `validate_schema` with the same schema, with no warning. |
| Scenarios.MultistepDerive | tests/test_multistep.py:15-72 | Two chained `number + 1` steps on 1..4 give 3..6 in the integer column `number_new`. |
| Scenarios.LookupFromCache | tests/test_transformer.py:288-311 | With the vocabulary cached, I10 and E11.9 become 316866 and 201826, and the unknown code becomes the default 0. |
| Scenarios.LinkFirstVisit | tests/test_transformer.py:329-364 | `first` without `order_by` gives persons 1, 2, 3 their first visits in file order. |

## Left out

- File I/O is not modelled. Reading CSV or parquet files becomes the `Store` maps (`source`, `lookups`, `target`), plus the cache. The `delimiter` key and the `file_extension` branch of `_load_lookup_table` are left out with it.
- `eval`/`query` strings are not parsed. Conditions and formulas are given as row functions that may fail, so pandas' expression language is outside the model.
- Some services are parameters of the model:
  - `pd.to_datetime` parsing, `strftime`, float parsing, and rendering floats and dates as text;
  - SHA-256: only the 64-hex-digit output format is modelled;
  - `uuid4`: the k-th draw of the session, with its low 128 bits formatted 8-4-4-4-12. The version and variant bits are not modelled.
- Steps.SortedFor: the sort is a stable insertion sort on an encoding of the cells. Comparing mixed types does not raise, missing values sort last, and pandas' unstable quicksort tie order is not reproduced.
- Grouping.PickFirst: `groupby().first()` picks the first row of each group. Pandas picks the first non-missing value per column separately.
- Grouping.PickLast: `groupby().last()` picks the last row of each group. Pandas picks the last non-missing value per column separately.
- Steps.ModePicks: ties for the most frequent value go to the value seen first, and a group with no value at all raises.
- Value equality stands in for pandas key hashing, so integer and float keys never match. For `merge` keys, `Null` matches `Null`, as pandas matches NaN keys.
- Schema.Lower: only ASCII letters are lower-cased.
- The `project_path` and `source_schema` fields are not modelled. The first only locates files, which the `Store` replaces. The second is never read by the modelled code.
- Steps.AggregateStep: `merge(..., suffixes=("", "_agg"))` is simplified. A target that is also a group-by key reads `<target>_agg` from the frame. A target whose `<target>_agg` already exists raises as a duplicate column, and otherwise the merged pick is returned.
- Steps.ToFrame: an unnamed series becomes a column named "0".
- `order_by` and `group_by` given as a single string are modelled only as a one-element list.
- Steps.DeriveStep: the series name pandas gives a derived column is not modelled; it is assigned under the target name either way.
- Steps.ApplyCondition: a condition's value must convert to `Int64`, whether or not the mask selects any row.
- Steps.PlanLink: a merge whose empty suffixes would create duplicate column names raises as a duplicate-column error, which is what pandas 2 does.
- A step without a `type` key, or with an unknown one, is the `Unsupported` step. `getattr` finding no method becomes "unsupported transformation type".
- Pipeline.ValidateSchema: the printed warning is returned as the list of extra columns; the printing itself is not modelled.
- Transform.AlignSeries: assigning a series with duplicate labels to a table with different labels raises `DuplicateLabels`. Pandas raises a reindex error there.
- Floating-point arithmetic is modelled with reals: `Real` cells are exact, and rounding is ignored.
- Concurrency is not modelled; the transformer is single-threaded.
- Column dtypes are not tracked. A cell's `Value` stands for itself, whatever column it sits in.
- Values.Stringify: an integer column with missing cells is not promoted to float64, so the `str` of 316866 is "316866", where pandas gives "316866.0". This reaches the string cast (Schema.StringCastSucceeds), Steps.ConcatenateStep and Steps.HashIds.
- Schema.CastValue: the bool cast turns a missing cell into true, as `astype(bool)` does for a float NaN. An `Int64` column with a missing cell raises there instead.
- Schema.ToInt64: the integer cast is decided cell by cell. Pandas first infers the whole column's kind, so a column mixing text, floats and booleans may raise there where the model gives a value.
