# Big 5 Metrics aggregation, modelled in Dafny

This project models the computational core of `calc_metrics.py`. That script computes
regional performance metrics from layers fetched from a GIS portal:

- It runs one of two aggregators per metric.
- It merges each metric's per-geography table into one wide table keyed by geography name.

The model covers three parts of the script:

- **`metricJobsBy`** (the ratio aggregator, module `JobsBy`).
  - Each key value is weighted by its record's share of the household weight of its
    raw geography value.
  - A record whose group weighs nothing counts 0.
  - The weighted values are summed per title-cased geography name.
  - Each configured area (a named filter) adds one more row, weighted over the records the
    filter keeps.
- **`metricEstimatesProjections`** (the rollup aggregator, module `Rollup`).
  - Each key field is summed or averaged, without weights, per raw value of each geography field.
  - The same is done over the records of each area.
  - Each key field is renamed to the output pattern plus its last four characters.
- **`mergeMetricDataframes`** (module `Merge`).
  - The accumulator starts as an empty frame.
  - An accumulator pandas calls `.empty` (no rows, or no columns at all) is replaced by the metric table.
  - Otherwise the accumulator is outer-joined with the metric table on `geoname`.

The other modules support these three:

- `Text`: ASCII `str.title`, `str(n)` and `s[-n:]`.
- `Frames`: records, column projection, filtering and cell assignment.
- `Groups`: `groupby().sum()` and the result tables.
- `Columns`: the column lists the aggregators build.

Both aggregators are methods with loops, proved against specification functions:

- `JobsBy.JobsBySpec` and `Rollup.RollupSpec` describe the errors raised and the tables produced.
- Lemmas then state what those tables hold.

Values are `real`, so there is no floating-point rounding. The source layer is a `Frame` whose
records have text cells and numeric cells. The regular expressions and the area query strings
are predicates, given as parameters.

## Model

| member | source | states |
|---|---|---|
| Text.Suffix | calc_metrics.py:139 | `s[-n:]` for n >= 1 has length min(n, \|s\|) and s is a prefix followed by it |
| Text.NatToStringInjective | calc_metrics.py:112 | distinct forecast-year indexes print as distinct digit strings |
| Text.TitleAt | calc_metrics.py:152 | character i of `str.title(s)` is lowered exactly when character i-1 of s is cased, otherwise raised |
| Text.TitleIdempotent | calc_metrics.py:253 | title-casing a title-cased geography name changes nothing |
| Text.OgdenTitles | calc_metrics.py:152 | "ogden" and "OGDEN" both title-case to "Ogden" |
| Frames.Select | calc_metrics.py:98 | the list comprehension over `re.match` keeps exactly the matching columns, none added |
| Frames.MatchPositions | calc_metrics.py:98-102 | the positions of the matching columns, each once, in increasing order, none missed |
| Frames.SelectInOrder | calc_metrics.py:98-102 | the selection keeps layer column order: its k-th column is the column at the k-th matching position, which decides which key field becomes `CY` and which `FY<i>` |
| Frames.FirstAbsent | calc_metrics.py:105 | `df[cols]` fails with the first listed column absent from the frame, and succeeds exactly when all are present |
| Frames.FirstAbsentAt | calc_metrics.py:218 | the failing column is the one at the first index whose column is absent |
| Frames.ProjectRow | calc_metrics.py:218 | a projected record has exactly the listed cells of the record, with their values |
| Frames.Project | calc_metrics.py:105 | `df[cols]` keeps every record, each restricted to the listed columns |
| Frames.ProjectKeepsCells | calc_metrics.py:105 | projection keeps the cells of every listed column |
| Frames.ProjectSameMembers | calc_metrics.py:275 | keeping the same set of columns in another order gives the same records |
| Frames.Where | calc_metrics.py:264 | `df.query` keeps exactly the records satisfying the filter, and no others |
| Frames.WhereCounts | calc_metrics.py:264 | a record the filter keeps is kept as often as it occurs, any other not at all |
| Frames.WhereKeepsCells | calc_metrics.py:163 | filtering keeps whatever cells every record had |
| Frames.CopyText | calc_metrics.py:232 | `df["geoname"] = df[g]` sets that one cell of every record to its g cell and changes nothing else |
| Frames.SetText | calc_metrics.py:262 | `df["geoname"] = name` sets that one cell of every record and changes nothing else |
| Frames.CountUniform | calc_metrics.py:262-264 | records that all carry one name are all counted for it and none for any other |
| Groups.GroupSumSpec | calc_metrics.py:128 | `groupby(key).sum()` has one row per distinct key, and each value is the column sum over that key's rows |
| Groups.GroupSumValues | calc_metrics.py:153 | the grouped keys are exactly the input keys, distinct, with per-key column sums |
| Groups.GroupSumOneKey | calc_metrics.py:186 | rows that all carry one key group into exactly one row, or none when there are no rows |
| Groups.AverageBounds | calc_metrics.py:142-146 | a value that, times a nonzero weight, gives a total between least and greatest key times that weight lies between least and greatest key |
| Columns.NewFieldsSpec | calc_metrics.py:93-96 | the appended query fields are exactly those not yet listed, each appended once |
| Columns.NewFieldsStep | calc_metrics.py:95-96 | one more query field is appended exactly when it is not yet listed |
| Columns.GeogAndQueryFields | calc_metrics.py:206-212 | `df_flds` is the geography fields, then each new query field once, none a geography field |
| Columns.AddQueryFields | calc_metrics.py:209-212 | one area's query fields extend the list by exactly its unlisted fields, in order |
| Columns.AppendedFields | calc_metrics.py:89-96 | the field list holds exactly the geography and query fields, with no repeat after the geography fields |
| Columns.OutFieldNamesDistinct | calc_metrics.py:108-114 | no two output columns of a ratio metric share a name |
| Columns.OutFieldNameNotGeoname | calc_metrics.py:108-114 | no output column of a ratio metric is called "geoname" |
| Columns.JobsOutFields | calc_metrics.py:108-114 | `out_flds` is "geoname", then `<pattern>CY`, then `<pattern>FY1`, `<pattern>FY2`, and so on, all distinct |
| Columns.RenameMap | calc_metrics.py:221-224 | `rename_dict` maps exactly the key fields, each to the pattern plus its last four characters |
| Columns.RenameAll | calc_metrics.py:242 | `rename` replaces the mapped names in place and keeps the others |
| Columns.AggregationSplit | calc_metrics.py:266-274 | the aggregated columns are exactly the key fields and geoname, the dropped ones exactly the rest, and no column is lost |
| Columns.AggregationPlan | calc_metrics.py:268-274 | the loop over the columns builds exactly that split, in column order |
| Columns.PlanOfLayout | calc_metrics.py:234-239 | laid out as the aggregator lays them out, the key fields are aggregated in order and every other field is dropped |
| Columns.KeepColumns | calc_metrics.py:275 | `drop(columns=d)` keeps exactly the columns not in d |
| Columns.KeepThenValues | calc_metrics.py:244-248 | dropping non-output columns, then setting geoname aside, leaves the retained output columns |
| Columns.FieldOutputColumns | calc_metrics.py:242-251 | the per-field columns are geoname first, then the renamed columns that are output names |
| Columns.RetainedRenamedKeys | calc_metrics.py:244-248 | in a rollup the drop list removes nothing: every key field survives, renamed, in order |
| JobsBy.WeightColumn | calc_metrics.py:139-141 | a key's weight column is the prefix followed by the key's last two characters |
| JobsBy.WeightColumns | calc_metrics.py:137-141 | one weight column per key field, in key order |
| JobsBy.Weighted | calc_metrics.py:142-146 | the weighted value is 0 when the group weight is 0, and otherwise key times own weight over group weight |
| JobsBy.WeightTallies | calc_metrics.py:124-128 | one weight row per record: its raw geography and its weighted columns |
| JobsBy.WeightTotals | calc_metrics.py:128 | the grouped weight table holds each weight column's total over the records with the same raw value |
| JobsBy.WeightsFromColumns | calc_metrics.py:140-141 | when every weight column is among the weighted fields, every record carries them |
| JobsBy.FieldTallies | calc_metrics.py:134-147 | `geog_list` has one row per record, in record order |
| JobsBy.TitleKeys | calc_metrics.py:152 | every row is relabelled with its title-cased name and keeps its values |
| JobsBy.FieldRows | calc_metrics.py:151-153 | each row of a field's table has its name as its index, and one value per key field |
| JobsBy.WeightRow | calc_metrics.py:135-146 | a record's values are computed in full, or the first missing weight column raises a KeyError naming its `_y` column |
| JobsBy.MetricJobsForField | calc_metrics.py:121-155 | the per-field loop returns exactly the field's result or error |
| JobsBy.AreaRowsSpec | calc_metrics.py:160-188 | an area whose query keeps no record adds no row; otherwise exactly one row, indexed and named by the area's title-cased name, whose value for key field j is the kept records' key-times-weight total over their weight total |
| JobsBy.AreaValue | calc_metrics.py:167-188 | the area row's value for key field j is the kept records' key-times-weight total over their weight total |
| JobsBy.SharesTotal | calc_metrics.py:167-177 | per-record shares of one area weight total add up to the key-times-weight total over that weight total |
| JobsBy.ScaledShares | calc_metrics.py:167-177 | the per-record shares, scaled back by the weight total, give the key-times-weight total |
| JobsBy.NonzeroDivisors | calc_metrics.py:173-177 | an area that keeps a record divides every key field by a nonzero weight total |
| JobsBy.AreaTallies | calc_metrics.py:169-179 | one area row per kept record, each labelled with the area's name |
| JobsBy.ColumnSums | calc_metrics.py:167 | `sum(numeric_only=True)` totals every weighted column over the area |
| JobsBy.AreaWeightRow | calc_metrics.py:170-179 | the loop builds exactly the area record's row |
| JobsBy.MetricJobsForArea | calc_metrics.py:160-188 | the per-area loop returns exactly the area's table |
| JobsBy.WhereKeepsWeights | calc_metrics.py:163 | an area query keeps every record's key and weight cells |
| JobsBy.OutColumns | calc_metrics.py:108-114 | one output value column per key field, named as `out_flds` names it |
| JobsBy.ProjectedCells | calc_metrics.py:105 | after `ato_df[df_flds]` every record still has every cell the aggregator reads |
| JobsBy.FieldPasses | calc_metrics.py:121-156 | the field loop gives each field's table in order, or the KeyError of a missing weight column |
| JobsBy.AreaPasses | calc_metrics.py:159-188 | the area loop gives each area's table in configuration order |
| JobsBy.MetricJobsBy | calc_metrics.py:81-194 | the aggregator returns exactly the specification's error or table |
| JobsBy.Aggregate | calc_metrics.py:107-194 | the passes and concatenation return exactly the specification's result |
| JobsBy.TitledSum | calc_metrics.py:151-153 | a title-cased group's value is the sum of the weighted values of its records |
| JobsBy.NamesCovered | calc_metrics.py:151-153 | every record's title-cased name heads a row of its field's table |
| JobsBy.NamesFromRecords | calc_metrics.py:151-153 | every row of a field's table is named after some record |
| JobsBy.FieldRowsSpec | calc_metrics.py:151-153 | a field's table has one row per title-cased name, holding the sum of that name's weighted values |
| JobsBy.PairsWeight | calc_metrics.py:128 | a weight group's weight is the total of its raw value's weight column |
| JobsBy.PairsBounded | calc_metrics.py:128 | a weight group's members are exactly the records with its raw value, so they share those records' bounds |
| JobsBy.ShareSumScaled | calc_metrics.py:142-146 | a group's weighted values, scaled back by its weight, give its key-times-weight total; a weightless group gives 0 |
| JobsBy.ProductSumBounds | calc_metrics.py:142-146 | with nonnegative weights, the key-times-weight total lies between the least and greatest key times the weight |
| JobsBy.GroupAverage | calc_metrics.py:142-146 | a group's weighted values add up to its key-times-weight total over its weight, between its least and greatest key value; a weightless group gives 0 |
| JobsBy.GroupMean | calc_metrics.py:142-146 | a group with nonzero weight has weighted values adding up to its key-times-weight total over its weight |
| JobsBy.WeightedAverage | calc_metrics.py:128-146 | per raw geography value the weighted values sum to 0 without weight, and otherwise to exactly the key-times-weight total over the weight total, which lies between the least and greatest key value |
| JobsBy.SingleSpelling | calc_metrics.py:151-153 | a name spelled one way among the records totals that spelling's weighted values |
| JobsBy.FieldValueBounds | calc_metrics.py:128-153 | a consistently spelled name's output is its records' key-times-weight total over their weight total, between their least and greatest key values, or 0 without weight |
| JobsBy.OgdenWeights | calc_metrics.py:128 | "ogden" and "OGDEN" form separate weight groups (100 and 50) |
| JobsBy.OgdenTallies | calc_metrics.py:134-147 | each Ogden record keeps its whole key value (50 and 20) |
| JobsBy.OgdenExample | calc_metrics.py:121-153 | the two spellings end up in one "Ogden" row worth 70 |
| Rollup.KeyTallies | calc_metrics.py:241 | one group-by input row per record: its raw field value and its key values |
| Rollup.KeyTallySums | calc_metrics.py:241 | a group's sum of key field j is that field's total over the records with the group's raw value |
| Rollup.KeyTallyCount | calc_metrics.py:241 | a group's row count is the number of records with its raw value |
| Rollup.FirstGeonameCopied | calc_metrics.py:238-241 | the "first" geoname of a group whose geoname was copied from the field is the group's raw value |
| Rollup.GroupRowsIndex | calc_metrics.py:241-253 | one row per raw value of the field, each with records; its geoname is its index title-cased |
| Rollup.GroupRowsValues | calc_metrics.py:241 | each grouped value is the sum or mean of its key field over the group's records |
| Rollup.ColumnTotalBounds | calc_metrics.py:237 | a group's total lies between count times the least and count times the greatest value |
| Rollup.MeanBounds | calc_metrics.py:237 | an unweighted group mean lies between the least and the greatest value it averages |
| Rollup.AreaRecords | calc_metrics.py:262-275 | the records an area groups all carry geoname and every key field |
| Rollup.ProjectedCells | calc_metrics.py:218 | after `ato_df[df_flds]` every record still has every cell the aggregator reads |
| Rollup.FieldRollupIndex | calc_metrics.py:232-253 | a field's table has one row per raw field value, covering every record, named by its index title-cased |
| Rollup.FieldRollupValues | calc_metrics.py:232-253 | each value of a field's table is the sum or mean of its key field over the records with the row's raw value |
| Rollup.AreaTagged | calc_metrics.py:262-264 | every record an area's query keeps carries the area's name as geoname |
| Rollup.AreaRollupIndex | calc_metrics.py:262-279 | an area's table has no row when its query keeps nothing, otherwise one row indexed by its name and named by its title-cased name |
| Rollup.AreaRollupValues | calc_metrics.py:262-279 | an area's row holds the sum or mean of each key field over every record its query keeps |
| Rollup.SpellingsStaySplit | calc_metrics.py:241-253 | two raw values differing only in case give two rows with the same title-cased geoname |
| Rollup.MeanOfTwo | calc_metrics.py:237-241 | the mean of two records of one spelling is their unweighted average, in one row |
| Rollup.OneSpellingOneRow | calc_metrics.py:241 | records that all carry one raw value make a table of exactly one row |
| Rollup.PairTotals | calc_metrics.py:241 | two records of one raw value total their values and count 2 |
| Rollup.CopyOverwrites | calc_metrics.py:232 | copying the field into geoname gives the same records whatever geoname held before |
| Rollup.SetOverwrites | calc_metrics.py:262 | setting geoname to the area's name gives the same records whatever geoname held before |
| Rollup.RollupField | calc_metrics.py:234-253 | a geography pass outputs geoname then the renamed key fields, with the grouped rows of its field |
| Rollup.RollupArea | calc_metrics.py:266-279 | an area pass outputs the renamed key fields then geoname, with the grouped rows of its kept records |
| Rollup.GeographyPasses | calc_metrics.py:230-255 | the geography loop produces every field's table in order and changes the records only in geoname |
| Rollup.AreaPasses | calc_metrics.py:258-282 | the area loop produces every area's table in configuration order |
| Rollup.SeparatedLayout | calc_metrics.py:232-239 | with the columns kept apart, the group-by takes exactly the key fields and geoname |
| Rollup.MetricEstimatesProjections | calc_metrics.py:197-289 | the aggregator returns exactly the specification's error or table |
| Rollup.Aggregate | calc_metrics.py:220-289 | the rename map, the passes and the concatenation return exactly the specification's result |
| Merge.EmptyFrame | calc_metrics.py:643 | the accumulator starts with no columns and no rows |
| Merge.Widen | calc_metrics.py:75 | a metric table becomes a wide table with the same columns, names and values, every value present, and `geoname` a column exactly when it was one |
| Merge.Nulls | calc_metrics.py:73 | a padding run of the given width holding only nulls |
| Merge.Suffixed | calc_metrics.py:73 | a column name the other table also has gets the suffix, others stay |
| Merge.Matches | calc_metrics.py:73 | the right rows matched by a geoname are exactly those with that name |
| Merge.OuterJoinRows | calc_metrics.py:73 | the outer join yields exactly the rows of a full outer join on geoname: matched pairs and each side's unmatched rows padded with nulls |
| Merge.JoinLeftCount | calc_metrics.py:73 | each left row of a name contributes one row per right row of that name, or one padded row when there is none |
| Merge.RightOnlyCount | calc_metrics.py:73 | a right row's name is in the right-only part exactly as often as on the right, when the left side lacks it |
| Merge.OuterJoinCounts | calc_metrics.py:73 | a geography with l rows on the left and r on the right has l·r rows in the join, or l (r) when the other side has none |
| Merge.PairInJoin | calc_metrics.py:73 | every left row beside every right row of its name is in the join |
| Merge.LeftAloneInJoin | calc_metrics.py:73 | a left row without a match is in the join, padded with nulls |
| Merge.RightAloneInJoin | calc_metrics.py:73 | a right row without a match is in the join, padded with nulls |
| Merge.OuterJoinKeepsNames | calc_metrics.py:73 | no geography of either side is dropped |
| Merge.OuterJoinNames | calc_metrics.py:73 | the joined geographies are exactly the union of both sides' geographies |
| Merge.OuterJoinShape | calc_metrics.py:73 | the join has the columns of both sides, and every row one cell per column |
| Merge.LeftOnlyPadding | calc_metrics.py:73 | a geography missing from the metric keeps its accumulated cells and gets nulls, not zeros, for the metric |
| Merge.RightOnlyPadding | calc_metrics.py:73 | a geography new with the metric gets nulls, not zeros, for the accumulated columns, then its own cells |
| Merge.OuterJoinUnique | calc_metrics.py:73 | two tables with one row per geography join into one row per geography |
| Merge.JoinColumnsDisjoint | calc_metrics.py:73 | metrics whose output names do not clash keep their column names unchanged |
| Merge.WidenNames | calc_metrics.py:75 | a metric table and its wide form cover the same geographies |
| Merge.MergeMetricTables | calc_metrics.py:70-77 | an accumulator pandas calls empty is replaced, its geographies lost; otherwise the geographies of both are kept and the columns of both counted; `geoname` stays a column when either side had it as one |
| Merge.MergeColumns | calc_metrics.py:70-75 | an accumulator pandas calls empty gives the metric's columns; otherwise, when the two tables share no column name, the accumulator's columns come first, then the metric's |
| Merge.MergeAllNames | calc_metrics.py:643-651 | when every metric output has a column, merging metric after metric into the empty frame covers exactly the union of all their geographies |
| Merge.MergeOrderIndependent | calc_metrics.py:643-651 | when every metric output has a column, merging the same metric tables in any order covers the same geographies |
| Merge.ColumnlessFirstDropped | calc_metrics.py:70-77 | a metric table with rows but no column at all (geoname as its index), merged first, is replaced by the next one and its geographies are lost |
| Merge.ColumnlessLaterKept | calc_metrics.py:70-77 | the same table merged after a rollup with rows keeps its geographies beside the rollup's |
| Merge.JobsOutput | calc_metrics.py:153 | a ratio metric's table reaches the merge with `geoname` as its index, not a column |
| Merge.RollupOutput | calc_metrics.py:251-262 | a rollup's table reaches the merge with `geoname` as a column, so it always has one |
| Merge.KeylessJobsColumnless | calc_metrics.py:98-114 | a ratio metric over a layer with no key field has no column at all |
| Merge.KeylessJobsFirstDropped | calc_metrics.py:70-77 | such a ratio metric, merged first, is replaced by the next metric and none of its geographies are kept |

## Behaviour of the code worth noting

The model follows the code in each of these cases.

- **Ratio weighting of the Ogden example.** Records "ogden" (key 50, weight 100) and "OGDEN" (key 20, weight 50).
  - Grouping weights by the title-cased name would give one weight total of 150 and a result of 40.0.
  - The code groups weights by the raw value (line 128), so each spelling is its own weight group.
  - It title-cases only afterwards (line 152), so the result is 50·100/100 + 20·50/50 = 70.0.
  - `JobsBy.OgdenExample` proves 70.
- **Rollup grouping.** The code groups by the raw field value (line 241) and title-cases afterwards (line 253).
  - So two spellings of one place give two rows with the same `geoname`.
  - `Rollup.SpellingsStaySplit` proves this.
- **Division by zero.** The geography-field passes give 0 for a record whose group weighs nothing (lines 142-146).
  - The area passes divide without a guard (line 177).
  - The model therefore requires that an area keeping a record has nonzero weight totals (`JobsBy.AreasDivisible`).
- **An empty accumulator.** The merge tests `output_df.empty` (line 70), which is true for a frame with no rows or with no columns.
  - A metric table with no rows is replaced, columns and all, by the next one (`Merge.MergeColumns`).
  - A ratio metric without key fields has rows but no column, its names being its index (lines 185-186). Merged first, it is replaced by the next metric and its geographies are lost; merged later it is kept (`Merge.ColumnlessFirstDropped`, `Merge.ColumnlessLaterKept`).

## Left out

- **Fetching and publishing.**
  - Portal login, layer fetch (`query(where=...)`), logging, the boundary join and upload are not modelled.
  - The fetched layer is a parameter.
  - `main`'s metric configuration and dispatch are not part of this model; `Merge.MergeAll` stands for its sequence of merges.
- **Regular expressions and area queries.**
  - `re.match` patterns and area `query` strings are given as predicates. Their syntax is not modelled.
  - An area query is applied to the record as the aggregator holds it at that point.
- **`str.title`.** It is modelled for ASCII letters. Other characters are taken as uncased and left unchanged. Python's Unicode case tables are not modelled.
- **Floating point.**
  - Values are exact reals. IEEE rounding, NaN and infinities are not modelled.
  - Nulls in the merged table are `None`.
  - An area whose weight total is zero would give infinities or NaN in the source; the model excludes this by precondition instead.
- **pandas details.**
  - Row order is not modelled: `groupby` sorts its keys and `merge` orders its rows its own way, and each grouped or joined table's order is unspecified in the model.
  - Index labels and duplicate column labels are not modelled, and the merge drops each metric table's index.
  - `_x`/`_y` suffixes that themselves collide are not modelled.
- **Aggregations.** Only `sum` and `mean` are modelled, the two the configured metrics use.
- **The `first` aggregation of the grouping column.** It is assumed to be accepted by pandas in the area pass.
- JobsBy.MetricJobsBy: requires `JobsBy.AreasDivisible`, because an unguarded division by a zero area weight total is not modelled.
- JobsBy.MetricJobsBy: requires `JobsBy.Typed`, that geography cells are text and key and weight cells numbers; mixed-type columns are not modelled.
- JobsBy.MetricJobsBy: a key field that also matches the weighted pattern, or a geography field among the key or weighted fields, repeats a label in `df_flds` (lines 99-102); pandas would then suffix or duplicate that column and raise a `KeyError` at line 143, while the model computes values as if the labels were distinct.
- Rollup.MetricEstimatesProjections: requires `Rollup.Typed`, for the same reason.
- Rollup.MetricEstimatesProjections: requires `Rollup.Separated`. So "geoname" is not a key, geography or query field, and no key field is renamed to it. A layer that already has a `geoname` column, or a pattern matching geography fields, is not modelled.
- Merge.MergeAllNames: holds only when every metric output has a column (`Merge.HasColumn`); a ratio metric without key fields merged first is replaced, as `Merge.ColumnlessFirstDropped` states.
- Merge.MergeOrderIndependent: holds only under the same condition, for the same reason.
- Frames.Where: the order of the kept records is not stated, only which records are kept and, in `Frames.WhereCounts`, how often.
- An area rollup has `geoname` both as its index name and as a column; whether pandas rejects that name as ambiguous when merging is not modelled.
- Frames.FirstAbsent: a `KeyError` is modelled as naming only the first missing column, not the full list pandas reports.
