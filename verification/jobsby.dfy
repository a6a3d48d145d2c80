/** The weighted-ratio aggregator (`metricJobsBy`): every key value is scaled
    by its row's share of the household weight of its geography, the scaled
    values are summed per title-cased geography name, and each named area
    contributes one more row computed over the records its filter keeps. */
module JobsBy {
  import opened Text
  import opened Frames
  import opened Groups
  import opened Columns

  /** The per-metric settings `metricJobsBy` reads. */
  datatype JobsConfig = JobsConfig(
    geogFields: seq<string>,
    areas: seq<Area>,
    keyPattern: string -> bool,
    weightedPattern: string -> bool,
    weightedPrefix: string,
    outFieldPattern: string)

  /** The weight column paired with a key field: the prefix and the key's last two characters. */
  function WeightColumn(prefix: string, key: string): (w: string)
    ensures |w| == |prefix| + (if |key| <= 2 then |key| else 2)
    ensures w[..|prefix|] == prefix && key == key[..|key| - (|w| - |prefix|)] + w[|prefix|..]
  {
    assert (prefix + Suffix(key, 2))[|prefix|..] == Suffix(key, 2);
    prefix + Suffix(key, 2)
  }

  /** The weight columns of all key fields, in key order. */
  function WeightColumns(keys: seq<string>, prefix: string): (ws: seq<string>)
    ensures |ws| == |keys|
    ensures forall j :: 0 <= j < |keys| ==> ws[j] == WeightColumn(prefix, keys[j])
  {
    seq(|keys|, j requires 0 <= j < |keys| => WeightColumn(prefix, keys[j]))
  }

  /** The guarded weighting formula: 0 for an empty weight group, otherwise the
      key value scaled by the row's share of the group's weight. */
  function Weighted(key: real, own: real, total: real): (v: real)
    ensures total == 0.0 ==> v == 0.0
    ensures total != 0.0 ==> v * total == key * own
  {
    if total != 0.0 then key * (own / total) else 0.0
  }

  /** Every record carries the weight column of every key field. */
  predicate WeightsPresent(rows: seq<Row>, keys: seq<string>, prefix: string)
  {
    forall i, j :: 0 <= i < |rows| && 0 <= j < |keys| ==> WeightColumn(prefix, keys[j]) in rows[i].num
  }

  predicate FieldCells(rows: seq<Row>, g: string, keys: seq<string>, prefix: string)
  {
    HasText(rows, g) && HasNums(rows, keys) && WeightsPresent(rows, keys, prefix)
  }

  /** The weighted value of one record for one key field: its key scaled by its
      share of the weight of all records in `all` with the same geography. */
  function FieldCell(row: Row, all: seq<Row>, g: string, key: string, w: string): real
    requires g in row.text && key in row.num && w in row.num
    requires HasText(all, g) && HasNum(all, w)
  {
    Weighted(row.num[key], row.num[w], ColumnTotal(all, g, row.text[g], w))
  }

  /** One record's `value_list`: its raw geography and one weighted value per key field. */
  function FieldTally(row: Row, all: seq<Row>, g: string, keys: seq<string>, prefix: string): (t: Tally)
    requires g in row.text && forall j :: 0 <= j < |keys| ==> keys[j] in row.num && WeightColumn(prefix, keys[j]) in row.num
    requires FieldCells(all, g, keys, prefix)
    ensures |t.values| == |keys|
  {
    Tally(row.text[g], seq(|keys|, j requires 0 <= j < |keys| =>
      FieldCell(row, all, g, keys[j], WeightColumn(prefix, keys[j]))))
  }

  /** `geog_list` of a geography field: one tally per record of `rows`, with
      group weights taken over `all`. */
  function FieldTallies(rows: seq<Row>, all: seq<Row>, g: string, keys: seq<string>, prefix: string): (ts: seq<Tally>)
    requires FieldCells(rows, g, keys, prefix) && FieldCells(all, g, keys, prefix)
    ensures |ts| == |rows| && Uniform(ts, |keys|)
    ensures forall i :: 0 <= i < |rows| ==> ts[i] == FieldTally(rows[i], all, g, keys, prefix)
  {
    seq(|rows|, i requires 0 <= i < |rows| => FieldTally(rows[i], all, g, keys, prefix))
  }

  /** `geog_df["geoname"].str.title()`: every tally relabelled with its title-cased key. */
  function TitleKeys(ts: seq<Tally>, w: nat): (r: seq<Tally>)
    requires Uniform(ts, w)
    ensures |r| == |ts| && Uniform(r, w)
    ensures forall i :: 0 <= i < |ts| ==> r[i] == Tally(Title(ts[i].key), ts[i].values)
  {
    seq(|ts|, i requires 0 <= i < |ts| => Tally(Title(ts[i].key), ts[i].values))
  }

  /** The table one geography field contributes (lines 121-155). */
  function FieldRows(rows: seq<Row>, g: string, keys: seq<string>, prefix: string): (out: seq<MetricRow>)
    requires FieldCells(rows, g, keys, prefix)
    ensures forall k :: 0 <= k < |out| ==> out[k].index == out[k].geoname && |out[k].values| == |keys|
  {
    ToMetric(GroupSum(TitleKeys(FieldTallies(rows, rows, g, keys, prefix), |keys|), |keys|))
  }

  /** `weighted_df` before the merge: each record's raw geography and its weight columns. */
  function WeightTallies(rows: seq<Row>, g: string, weighted: seq<string>): (ts: seq<Tally>)
    requires HasText(rows, g) && HasNums(rows, weighted)
    ensures |ts| == |rows| && Uniform(ts, |weighted|)
    ensures forall i :: 0 <= i < |rows| ==>
      ts[i] == Tally(rows[i].text[g], seq(|weighted|, j requires 0 <= j < |weighted| => rows[i].num[weighted[j]]))
  {
    seq(|rows|, i requires 0 <= i < |rows| =>
      Tally(rows[i].text[g], seq(|weighted|, j requires 0 <= j < |weighted| => rows[i].num[weighted[j]])))
  }

  /** Every record carries every weighted column, and every key's weight column is weighted. */
  lemma WeightsFromColumns(rows: seq<Row>, keys: seq<string>, weighted: seq<string>, prefix: string)
    requires HasNums(rows, weighted)
    requires rows == [] || FirstAbsent(WeightColumns(keys, prefix), weighted).None?
    ensures WeightsPresent(rows, keys, prefix)
  {
    forall i, j | 0 <= i < |rows| && 0 <= j < |keys| ensures WeightColumn(prefix, keys[j]) in rows[i].num {
      assert WeightColumns(keys, prefix)[j] in WeightColumns(keys, prefix);
      var c := IndexOf(weighted, WeightColumn(prefix, keys[j]));
    }
  }

  /** What one geography field contributes: its table, or the `KeyError` the
      first record raises when a key field has no weight column. */
  function FieldResult(rows: seq<Row>, g: string, keys: seq<string>, weighted: seq<string>, prefix: string)
    : Result<seq<MetricRow>>
    requires HasText(rows, g) && HasNums(rows, keys) && HasNums(rows, weighted)
  {
    var missing := FirstAbsent(WeightColumns(keys, prefix), weighted);
    if rows != [] && missing.Some? then Err(MissingColumn(missing.value + "_y"))
    else
      WeightsFromColumns(rows, keys, weighted, prefix);
      Ok(FieldRows(rows, g, keys, prefix))
  }

  /** The position of a column in a column list. */
  function IndexOf(xs: seq<string>, x: string): (i: nat)
    requires x in xs
    ensures i < |xs| && xs[i] == x
  {
    if xs[0] == x then 0 else 1 + IndexOf(xs[1..], x)
  }

  lemma {:induction false} WeightTallySum(rows: seq<Row>, g: string, weighted: seq<string>, raw: string, c: nat)
    requires HasText(rows, g) && HasNums(rows, weighted) && c < |weighted|
    ensures SumAt(WeightTallies(rows, g, weighted), raw, c) == ColumnTotal(rows, g, raw, weighted[c])
  {
    if rows != [] {
      assert WeightTallies(rows, g, weighted)[1..] == WeightTallies(rows[1..], g, weighted);
      WeightTallySum(rows[1..], g, weighted, raw, c);
    }
  }

  /** Line 128: the grouped weight table holds, for each raw geography value,
      the total of each weight column over the records with that value. */
  lemma WeightTotals(rows: seq<Row>, g: string, weighted: seq<string>)
    requires HasText(rows, g) && HasNums(rows, weighted)
    ensures forall raw, c :: 0 <= c < |weighted| ==>
      ValueAt(GroupSum(WeightTallies(rows, g, weighted), |weighted|), raw, c) == ColumnTotal(rows, g, raw, weighted[c])
  {
    GroupSumValues(WeightTallies(rows, g, weighted), |weighted|);
    forall raw, c | 0 <= c < |weighted|
      ensures SumAt(WeightTallies(rows, g, weighted), raw, c) == ColumnTotal(rows, g, raw, weighted[c])
    {
      WeightTallySum(rows, g, weighted, raw, c);
    }
  }

  /** Lines 135-146: the `value_list` of record i, one weighted value per key
      field; looking up a weight column that is not weighted raises. */
  method WeightRow(rows: seq<Row>, i: nat, g: string, keys: seq<string>, weighted: seq<string>, prefix: string,
                   totals: seq<Tally>)
    returns (res: Result<seq<real>>)
    requires i < |rows| && HasText(rows, g) && HasNums(rows, keys) && HasNums(rows, weighted)
    requires Uniform(totals, |weighted|)
    requires forall raw, c :: 0 <= c < |weighted| ==> ValueAt(totals, raw, c) == ColumnTotal(rows, g, raw, weighted[c])
    ensures var missing := FirstAbsent(WeightColumns(keys, prefix), weighted);
      if missing.Some? then res == Err(MissingColumn(missing.value + "_y"))
      else FieldCells(rows, g, keys, prefix) && res == Ok(FieldTally(rows[i], rows, g, keys, prefix).values)
  {
    var raw := rows[i].text[g];
    var values: seq<real> := [];
    for j := 0 to |keys|
      invariant |values| == j
      invariant forall m :: 0 <= m < j ==> WeightColumn(prefix, keys[m]) in weighted
      invariant forall m :: 0 <= m < j ==> WeightColumn(prefix, keys[m]) in rows[i].num
      invariant forall m :: 0 <= m < j ==>
        values[m] == Weighted(rows[i].num[keys[m]], rows[i].num[WeightColumn(prefix, keys[m])],
                              ColumnTotal(rows, g, raw, WeightColumn(prefix, keys[m])))
    {
      var w := prefix + Suffix(keys[j], 2);
      if w !in weighted {
        FirstAbsentAt(WeightColumns(keys, prefix), weighted, j);
        return Err(MissingColumn(w + "_y"));
      }
      var c := IndexOf(weighted, w);
      var total := ValueAt(totals, raw, c);
      assert total == ColumnTotal(rows, g, raw, WeightColumn(prefix, keys[j]));
      var v := if total != 0.0 then rows[i].num[keys[j]] * (rows[i].num[w] / total) else 0.0;
      assert v == Weighted(rows[i].num[keys[j]], rows[i].num[w], total);
      values := values + [v];
    }
    assert FirstAbsent(WeightColumns(keys, prefix), weighted).None?;
    WeightsFromColumns(rows, keys, weighted, prefix);
    var expected := FieldTally(rows[i], rows, g, keys, prefix).values;
    assert forall m :: 0 <= m < |keys| ==> values[m] == expected[m];
    assert values == expected;
    res := Ok(values);
  }

  /** Lines 121-155 for one geography field: weight every record, title-case,
      and sum per name; a missing weight column raises on the first record. */
  method MetricJobsForField(rows: seq<Row>, g: string, keys: seq<string>, weighted: seq<string>, prefix: string)
    returns (res: Result<seq<MetricRow>>)
    requires HasText(rows, g) && HasNums(rows, keys) && HasNums(rows, weighted)
    ensures res == FieldResult(rows, g, keys, weighted, prefix)
  {
    var totals := GroupSum(WeightTallies(rows, g, weighted), |weighted|);
    WeightTotals(rows, g, weighted);
    var geogList: seq<Tally> := [];
    for i := 0 to |rows|
      invariant |geogList| == i && Uniform(geogList, |keys|)
      invariant i > 0 ==> FirstAbsent(WeightColumns(keys, prefix), weighted).None? && FieldCells(rows, g, keys, prefix)
      invariant forall n :: 0 <= n < i ==> geogList[n] == FieldTally(rows[n], rows, g, keys, prefix)
    {
      var values := WeightRow(rows, i, g, keys, weighted, prefix, totals);
      if values.Err? {
        return Err(values.failure);
      }
      geogList := geogList + [Tally(rows[i].text[g], values.value)];
    }
    if rows != [] {
      assert geogList == FieldTallies(rows, rows, g, keys, prefix);
    }
    var titled := TitleKeys(geogList, |keys|);
    res := Ok(ToMetric(GroupSum(titled, |keys|)));
  }

  /** Weight column w summed over all the records of an area (line 167). */
  function AreaTotal(rows: seq<Row>, w: string): (t: real)
    requires HasNum(rows, w)
  {
    if rows == [] then 0.0 else rows[0].num[w] + AreaTotal(rows[1..], w)
  }

  /** The area division has no zero guard: an area that keeps a record must
      carry some weight in every weight column it divides by. */
  predicate AreaNonzero(rows: seq<Row>, keys: seq<string>, prefix: string)
  {
    forall j :: 0 <= j < |keys| && rows != [] && HasNum(rows, WeightColumn(prefix, keys[j])) ==>
      AreaTotal(rows, WeightColumn(prefix, keys[j])) != 0.0
  }

  /** One area record's weighted value for one key field. */
  function AreaCell(row: Row, all: seq<Row>, key: string, w: string): real
    requires key in row.num && w in row.num && HasNum(all, w) && AreaTotal(all, w) != 0.0
  {
    row.num[key] * (row.num[w] / AreaTotal(all, w))
  }

  predicate AreaDivisors(all: seq<Row>, keys: seq<string>, prefix: string)
  {
    WeightsPresent(all, keys, prefix) &&
    forall j :: 0 <= j < |keys| ==> AreaTotal(all, WeightColumn(prefix, keys[j])) != 0.0
  }

  /** An area that keeps a record divides every key field by a nonzero weight total. */
  lemma NonzeroDivisors(rows: seq<Row>, keys: seq<string>, prefix: string)
    requires rows != [] && WeightsPresent(rows, keys, prefix) && AreaNonzero(rows, keys, prefix)
    ensures AreaDivisors(rows, keys, prefix)
  {
    forall j | 0 <= j < |keys| ensures AreaTotal(rows, WeightColumn(prefix, keys[j])) != 0.0 {
      assert HasNum(rows, WeightColumn(prefix, keys[j]));
    }
  }

  /** One area record's `value_list`: the area's name and one weighted value per key field. */
  function AreaTally(row: Row, all: seq<Row>, name: string, keys: seq<string>, prefix: string): (t: Tally)
    requires forall j :: 0 <= j < |keys| ==> keys[j] in row.num && WeightColumn(prefix, keys[j]) in row.num
    requires AreaDivisors(all, keys, prefix)
    ensures t.key == name && |t.values| == |keys|
  {
    Tally(name, seq(|keys|, j requires 0 <= j < |keys| => AreaCell(row, all, keys[j], WeightColumn(prefix, keys[j]))))
  }

  /** `geog_list` of an area: every record labelled with the area's name. */
  function AreaTallies(rows: seq<Row>, all: seq<Row>, name: string, keys: seq<string>, prefix: string): (ts: seq<Tally>)
    requires HasNums(rows, keys) && WeightsPresent(rows, keys, prefix)
    requires rows != [] ==> AreaDivisors(all, keys, prefix)
    ensures |ts| == |rows| && Uniform(ts, |keys|)
    ensures forall i :: 0 <= i < |rows| ==> ts[i] == AreaTally(rows[i], all, name, keys, prefix)
  {
    seq(|rows|, i requires 0 <= i < |rows| => AreaTally(rows[i], all, name, keys, prefix))
  }

  /** The table one area contributes (lines 160-188): its records' weighted
      values summed under the area's title-cased name. */
  function AreaRows(rows: seq<Row>, name: string, keys: seq<string>, prefix: string): (out: seq<MetricRow>)
    requires HasNums(rows, keys) && WeightsPresent(rows, keys, prefix)
    requires rows != [] ==> AreaDivisors(rows, keys, prefix)
  {
    ToMetric(GroupSum(TitleKeys(AreaTallies(rows, rows, name, keys, prefix), |keys|), |keys|))
  }

  /** Key field times weight, summed over all the records of an area. */
  function AreaProduct(rows: seq<Row>, key: string, w: string): (p: real)
    requires HasNum(rows, key) && HasNum(rows, w)
  {
    if rows == [] then 0.0 else rows[0].num[key] * rows[0].num[w] + AreaProduct(rows[1..], key, w)
  }

  /** Tally i, keyed k, holds in column c record i's key value times its share of the weight total t. */
  predicate Shares(ts: seq<Tally>, rows: seq<Row>, k: string, c: nat, key: string, w: string, t: real)
  {
    |ts| == |rows| && HasNum(rows, key) && HasNum(rows, w) && t != 0.0 &&
    forall i :: 0 <= i < |ts| ==>
      ts[i].key == k && c < |ts[i].values| && ts[i].values[c] == rows[i].num[key] * (rows[i].num[w] / t)
  }

  /** Shares of a total t, one per record, scaled back by t give the records'
      key-times-weight total. */
  lemma {:induction false} ScaledShares(ts: seq<Tally>, rows: seq<Row>, k: string, c: nat, key: string, w: string, t: real)
    requires Shares(ts, rows, k, c, key, w, t)
    ensures forall i :: 0 <= i < |ts| ==> c < |ts[i].values|
    ensures SumAt(ts, k, c) * t == AreaProduct(rows, key, w)
  {
    if ts != [] {
      SharesTail(ts, rows, k, c, key, w, t);
      ScaledShares(ts[1..], rows[1..], k, c, key, w, t);
      var a, b := rows[0].num[key], rows[0].num[w];
      var rest, p := SumAt(ts[1..], k, c), AreaProduct(rows[1..], key, w);
      assert SumAt(ts, k, c) == a * (b / t) + rest;
      assert AreaProduct(rows, key, w) == a * b + p;
      ShareStep(a, b, t, rest, p);
    }
  }

  /** The shares after the first are shares of the same total. */
  lemma SharesTail(ts: seq<Tally>, rows: seq<Row>, k: string, c: nat, key: string, w: string, t: real)
    requires Shares(ts, rows, k, c, key, w, t) && ts != []
    ensures Shares(ts[1..], rows[1..], k, c, key, w, t)
  {
    forall i | 0 <= i < |ts| - 1 ensures ts[1..][i] == ts[i + 1] && rows[1..][i] == rows[i + 1] {
    }
  }

  /** One more share: a·(b/t) added to shares that scale back to p scales back to a·b + p. */
  lemma ShareStep(a: real, b: real, t: real, rest: real, p: real)
    requires t != 0.0 && rest * t == p
    ensures (a * (b / t) + rest) * t == a * b + p
  {
    assert a * (b / t) * t == a * b;
  }

  /** What an area contributes (lines 163-188): no row when its query keeps no
      record; otherwise one row, indexed and named by the area's title-cased
      name, whose value for key field j is the kept records' key-times-weight
      total over the weight total of those records alone: the weighted average
      of the key field over the area. */
  lemma AreaRowsSpec(rows: seq<Row>, name: string, keys: seq<string>, prefix: string)
    requires HasNums(rows, keys) && WeightsPresent(rows, keys, prefix)
    requires rows != [] ==> AreaDivisors(rows, keys, prefix)
    ensures rows == [] ==> AreaRows(rows, name, keys, prefix) == []
    ensures rows != [] ==>
      var out := AreaRows(rows, name, keys, prefix);
      |out| == 1 && out[0].index == Title(name) && out[0].geoname == Title(name) && |out[0].values| == |keys| &&
      forall j :: 0 <= j < |keys| ==>
        out[0].values[j] == AreaProduct(rows, keys[j], WeightColumn(prefix, keys[j])) / AreaTotal(rows, WeightColumn(prefix, keys[j]))
  {
    var tt := TitleKeys(AreaTallies(rows, rows, name, keys, prefix), |keys|);
    GroupSumOneKey(tt, |keys|, Title(name));
    if rows != [] {
      AreaGroup(tt, Title(name), |keys|);
      forall j | 0 <= j < |keys| {
        AreaValue(rows, name, keys, prefix, j);
      }
    }
  }

  /** The area row's value for key field j is the area's weighted average of that field. */
  lemma AreaValue(rows: seq<Row>, name: string, keys: seq<string>, prefix: string, j: nat)
    requires HasNums(rows, keys) && WeightsPresent(rows, keys, prefix)
    requires rows != [] && AreaDivisors(rows, keys, prefix) && j < |keys|
    ensures var out := AreaRows(rows, name, keys, prefix);
      |out| == 1 && j < |out[0].values| &&
      out[0].values[j] == AreaProduct(rows, keys[j], WeightColumn(prefix, keys[j])) / AreaTotal(rows, WeightColumn(prefix, keys[j]))
  {
    var w := WeightColumn(prefix, keys[j]);
    AreaRowValue(rows, name, keys, prefix, j);
    AreaShares(rows, name, keys, prefix, j);
    SharesTotal(TitleKeys(AreaTallies(rows, rows, name, keys, prefix), |keys|), rows, Title(name), j, keys[j], w,
                AreaTotal(rows, w), AreaRows(rows, name, keys, prefix)[0].values[j]);
  }

  /** The area's one row holds, for key field j, the sum of its titled tallies. */
  lemma AreaRowValue(rows: seq<Row>, name: string, keys: seq<string>, prefix: string, j: nat)
    requires HasNums(rows, keys) && WeightsPresent(rows, keys, prefix)
    requires rows != [] && AreaDivisors(rows, keys, prefix) && j < |keys|
    ensures var tt := TitleKeys(AreaTallies(rows, rows, name, keys, prefix), |keys|);
      var out := AreaRows(rows, name, keys, prefix);
      |out| == 1 && j < |out[0].values| && (forall i :: 0 <= i < |tt| ==> j < |tt[i].values|) &&
      out[0].values[j] == SumAt(tt, Title(name), j)
  {
    var tt := TitleKeys(AreaTallies(rows, rows, name, keys, prefix), |keys|);
    var gs := GroupSum(tt, |keys|);
    assert AreaRows(rows, name, keys, prefix) == ToMetric(gs);
    AreaGroup(tt, Title(name), |keys|);
  }

  /** The sum v of the shares is the key-times-weight total over the weight total t. */
  lemma SharesTotal(ts: seq<Tally>, rows: seq<Row>, k: string, c: nat, key: string, w: string, t: real, v: real)
    requires Shares(ts, rows, k, c, key, w, t)
    requires (forall i :: 0 <= i < |ts| ==> c < |ts[i].values|) && v == SumAt(ts, k, c)
    ensures HasNum(rows, key) && HasNum(rows, w)
    ensures v == AreaProduct(rows, key, w) / t
  {
    var p := AreaProduct(rows, key, w);
    ScaledShares(ts, rows, k, c, key, w, t);
    assert v * t == p;
    Unscale(v, t, p);
  }

  lemma Unscale(v: real, t: real, p: real)
    requires t != 0.0 && v * t == p
    ensures v == p / t
  {
  }


  /** Rows all carrying key k group into one row, keyed k, holding their sums. */
  lemma AreaGroup(tt: seq<Tally>, k: string, n: nat)
    requires Uniform(tt, n) && tt != []
    requires forall i :: 0 <= i < |tt| ==> tt[i].key == k
    ensures |GroupSum(tt, n)| == 1 && GroupSum(tt, n)[0].key == k
    ensures forall c :: 0 <= c < n ==> GroupSum(tt, n)[0].values[c] == SumAt(tt, k, c)
  {
    var gs := GroupSum(tt, n);
    GroupSumOneKey(tt, n, k);
    GroupSumSpec(tt, n);
    KeysAt(gs);
    KeysAt(tt);
    assert gs[0].key in Keys(gs);
  }

  /** Each titled area tally holds, for key field j, the record's share of the area's weight total times its key value. */
  lemma AreaShares(rows: seq<Row>, name: string, keys: seq<string>, prefix: string, j: nat)
    requires HasNums(rows, keys) && WeightsPresent(rows, keys, prefix)
    requires rows != [] && AreaDivisors(rows, keys, prefix) && j < |keys|
    ensures HasNum(rows, WeightColumn(prefix, keys[j]))
    ensures Shares(TitleKeys(AreaTallies(rows, rows, name, keys, prefix), |keys|), rows, Title(name), j, keys[j],
                   WeightColumn(prefix, keys[j]), AreaTotal(rows, WeightColumn(prefix, keys[j])))
  {
    var ts := AreaTallies(rows, rows, name, keys, prefix);
    var w := WeightColumn(prefix, keys[j]);
    forall i | 0 <= i < |rows| ensures ts[i].values[j] == AreaCell(rows[i], rows, keys[j], w) {
    }
  }


  /** `area_df[...].sum(numeric_only=True)`: every weighted column totalled over the area. */
  function ColumnSums(rows: seq<Row>, weighted: seq<string>): (r: seq<real>)
    requires HasNums(rows, weighted)
    ensures |r| == |weighted| && forall j :: 0 <= j < |weighted| ==> r[j] == AreaTotal(rows, weighted[j])
  {
    seq(|weighted|, j requires 0 <= j < |weighted| => AreaTotal(rows, weighted[j]))
  }

  /** Every key field's weight column is among the weighted fields. */
  lemma WeightedHasWeights(keys: seq<string>, weighted: seq<string>, prefix: string, j: nat)
    requires FirstAbsent(WeightColumns(keys, prefix), weighted).None? && j < |keys|
    ensures WeightColumn(prefix, keys[j]) in weighted
  {
    assert WeightColumns(keys, prefix)[j] in WeightColumns(keys, prefix);
  }

  /** Lines 170-179: the `value_list` of area record i, under the area's name. */
  method AreaWeightRow(rows: seq<Row>, i: nat, name: string, keys: seq<string>, weighted: seq<string>, prefix: string,
                       totals: seq<real>)
    returns (t: Tally)
    requires i < |rows| && HasNums(rows, keys) && HasNums(rows, weighted)
    requires FirstAbsent(WeightColumns(keys, prefix), weighted).None?
    requires AreaDivisors(rows, keys, prefix)
    requires |totals| == |weighted| && forall c :: 0 <= c < |weighted| ==> totals[c] == AreaTotal(rows, weighted[c])
    ensures t == AreaTally(rows[i], rows, name, keys, prefix)
  {
    var values := [];
    for j := 0 to |keys|
      invariant |values| == j
      invariant forall m :: 0 <= m < j ==>
        values[m] == AreaCell(rows[i], rows, keys[m], WeightColumn(prefix, keys[m]))
    {
      var w := prefix + Suffix(keys[j], 2);
      WeightedHasWeights(keys, weighted, prefix, j);
      var total := totals[IndexOf(weighted, w)];
      values := values + [rows[i].num[keys[j]] * (rows[i].num[w] / total)];
    }
    t := Tally(name, values);
    var expected := AreaTally(rows[i], rows, name, keys, prefix).values;
    assert forall m :: 0 <= m < |keys| ==> values[m] == expected[m];
  }

  /** Lines 160-188 for one area, given the records its filter kept. */
  method MetricJobsForArea(rows: seq<Row>, name: string, keys: seq<string>, weighted: seq<string>, prefix: string)
    returns (out: seq<MetricRow>)
    requires HasNums(rows, keys) && HasNums(rows, weighted) && WeightsPresent(rows, keys, prefix)
    requires rows != [] ==> FirstAbsent(WeightColumns(keys, prefix), weighted).None? && AreaDivisors(rows, keys, prefix)
    ensures out == AreaRows(rows, name, keys, prefix)
  {
    var totals := ColumnSums(rows, weighted);
    var geogList: seq<Tally> := [];
    for i := 0 to |rows|
      invariant |geogList| == i
      invariant forall n :: 0 <= n < i ==> geogList[n] == AreaTally(rows[n], rows, name, keys, prefix)
    {
      var t := AreaWeightRow(rows, i, name, keys, weighted, prefix, totals);
      geogList := geogList + [t];
    }
    if rows != [] {
      assert geogList == AreaTallies(rows, rows, name, keys, prefix);
    }
    out := ToMetric(GroupSum(TitleKeys(geogList, |keys|), |keys|));
  }

  /** Filtering keeps every record's weight columns. */
  lemma WhereKeepsWeights(rows: seq<Row>, keep: Row -> bool, keys: seq<string>, prefix: string)
    requires HasNums(rows, keys) && WeightsPresent(rows, keys, prefix)
    ensures HasNums(Where(rows, keep), keys) && WeightsPresent(Where(rows, keep), keys, prefix)
  {
    var r := Where(rows, keep);
    forall i | 0 <= i < |r| ensures exists n :: 0 <= n < |rows| && rows[n] == r[i] {
      assert r[i] in r;
    }
  }

  /** Every area that keeps a record divides by nonzero weight totals. */
  predicate AreaWeightsNonzero(rows: seq<Row>, areas: seq<Area>, keys: seq<string>, prefix: string)
  {
    forall a :: 0 <= a < |areas| ==> AreaNonzero(Where(rows, areas[a].filter), keys, prefix)
  }

  /** The tables of the geography fields, in field order. */
  function FieldTables(rows: seq<Row>, geogs: seq<string>, keys: seq<string>, prefix: string): seq<MetricRow>
    requires forall g :: g in geogs ==> HasText(rows, g)
    requires HasNums(rows, keys) && WeightsPresent(rows, keys, prefix)
  {
    if geogs == [] then []
    else FieldTables(rows, geogs[..|geogs| - 1], keys, prefix) + FieldRows(rows, geogs[|geogs| - 1], keys, prefix)
  }

  /** The tables of the areas, in configuration order. */
  function AreaTables(rows: seq<Row>, areas: seq<Area>, keys: seq<string>, prefix: string): seq<MetricRow>
    requires HasNums(rows, keys) && (areas != [] ==> WeightsPresent(rows, keys, prefix))
    requires AreaWeightsNonzero(rows, areas, keys, prefix)
  {
    if areas == [] then []
    else
      var area := areas[|areas| - 1];
      var kept := Where(rows, area.filter);
      WhereKeepsWeights(rows, area.filter, keys, prefix);
      assert kept != [] ==> AreaDivisors(kept, keys, prefix) by {
        if kept != [] {
          NonzeroDivisors(kept, keys, prefix);
        }
      }
      AreaTables(rows, areas[..|areas| - 1], keys, prefix) + AreaRows(Where(rows, area.filter), area.name, keys, prefix)
  }

  function KeyFields(src: Frame, cfg: JobsConfig): seq<string>
  {
    Select(src.columns, cfg.keyPattern)
  }

  function WeightedFields(src: Frame, cfg: JobsConfig): seq<string>
  {
    Select(src.columns, cfg.weightedPattern)
  }

  /** `df_flds` once complete: geography fields, new query fields, key fields, weighted fields. */
  function KeptFields(src: Frame, cfg: JobsConfig): seq<string>
  {
    cfg.geogFields + NewFields(AllQueryFields(cfg.areas), cfg.geogFields) + KeyFields(src, cfg) + WeightedFields(src, cfg)
  }

  /** The value column names of a ratio metric, one per key field. */
  function OutColumns(outFieldPattern: string, n: nat): (cs: seq<string>)
    ensures |cs| == n && forall i :: 0 <= i < n ==> cs[i] == OutFieldName(outFieldPattern, i)
  {
    seq(n, i requires 0 <= i < n => OutFieldName(outFieldPattern, i))
  }

  /** The source table's cells have the types the aggregator reads them as:
      geography names are text, key and weight values are numbers. */
  predicate Typed(src: Frame, cfg: JobsConfig)
  {
    (forall g :: g in cfg.geogFields && g in src.columns ==> HasText(src.rows, g)) &&
    HasNums(src.rows, KeyFields(src, cfg)) && HasNums(src.rows, WeightedFields(src, cfg))
  }

  /** After `ato_df[df_flds]`, the kept records still carry every cell the aggregator reads. */
  lemma ProjectedCells(src: Frame, cfg: JobsConfig)
    requires Typed(src, cfg) && FirstAbsent(KeptFields(src, cfg), src.columns).None?
    ensures var rows := Project(src.rows, KeptFields(src, cfg));
      (forall g :: g in cfg.geogFields ==> HasText(rows, g)) &&
      HasNums(rows, KeyFields(src, cfg)) && HasNums(rows, WeightedFields(src, cfg))
  {
    var fields := KeptFields(src, cfg);
    forall g | g in cfg.geogFields ensures HasText(Project(src.rows, fields), g) {
      assert g in fields;
      ProjectKeepsCells(src.rows, fields, g, []);
    }
    ProjectKeepsCells(src.rows, fields, "", KeyFields(src, cfg));
    ProjectKeepsCells(src.rows, fields, "", WeightedFields(src, cfg));
  }

  /** The areas divide by nonzero totals, as the records they see after projection. */
  predicate AreasDivisible(src: Frame, cfg: JobsConfig)
  {
    AreaWeightsNonzero(Project(src.rows, KeptFields(src, cfg)), cfg.areas, KeyFields(src, cfg), cfg.weightedPrefix)
  }

  /** `metricJobsBy` as a function: the error it raises first, or the
      concatenated per-field and per-area tables. */
  function JobsBySpec(src: Frame, cfg: JobsConfig): Result<MetricTable>
    requires Typed(src, cfg) && AreasDivisible(src, cfg)
  {
    var fields := KeptFields(src, cfg);
    var keys := KeyFields(src, cfg);
    var weighted := WeightedFields(src, cfg);
    var missing := FirstAbsent(fields, src.columns);
    if missing.Some? then Err(MissingColumn(missing.value))
    else
      ProjectedCells(src, cfg);
      AggregateSpec(Project(src.rows, fields), cfg, keys, weighted)
  }

  /** The passes over the kept records: the field passes, the area passes and the concatenation. */
  function AggregateSpec(rows: seq<Row>, cfg: JobsConfig, keys: seq<string>, weighted: seq<string>): Result<MetricTable>
    requires forall g :: g in cfg.geogFields ==> HasText(rows, g)
    requires HasNums(rows, keys) && HasNums(rows, weighted)
    requires AreaWeightsNonzero(rows, cfg.areas, keys, cfg.weightedPrefix)
  {
    var missingWeight := FirstAbsent(WeightColumns(keys, cfg.weightedPrefix), weighted);
    if cfg.geogFields == [] then Err(if cfg.areas == [] then NothingToConcatenate else UnboundWeightedFields)
    else if rows != [] && missingWeight.Some? then Err(MissingColumn(missingWeight.value + "_y"))
    else
      WeightsFromColumns(rows, keys, weighted, cfg.weightedPrefix);
      Ok(MetricTable(OutColumns(cfg.outFieldPattern, |keys|),
                     FieldTables(rows, cfg.geogFields, keys, cfg.weightedPrefix) +
                     AreaTables(rows, cfg.areas, keys, cfg.weightedPrefix)))
  }

  /** Lines 121-156: the geography-field passes, appended to `all_df_list` in field order. */
  method FieldPasses(rows: seq<Row>, geogs: seq<string>, keys: seq<string>, weighted: seq<string>, prefix: string)
    returns (res: Result<seq<MetricRow>>)
    requires forall g :: g in geogs ==> HasText(rows, g)
    requires HasNums(rows, keys) && HasNums(rows, weighted)
    ensures geogs == [] ==> res == Ok([])
    ensures var missing := FirstAbsent(WeightColumns(keys, prefix), weighted);
      geogs != [] ==>
        if rows != [] && missing.Some? then res == Err(MissingColumn(missing.value + "_y"))
        else WeightsPresent(rows, keys, prefix) && res == Ok(FieldTables(rows, geogs, keys, prefix))
  {
    var allRows: seq<MetricRow> := [];
    for gi := 0 to |geogs|
      invariant gi > 0 ==> rows == [] || FirstAbsent(WeightColumns(keys, prefix), weighted).None?
      invariant gi > 0 ==> WeightsPresent(rows, keys, prefix) && allRows == FieldTables(rows, geogs[..gi], keys, prefix)
      invariant gi == 0 ==> allRows == []
    {
      var t := MetricJobsForField(rows, geogs[gi], keys, weighted, prefix);
      if t.Err? {
        return Err(t.failure);
      }
      WeightsFromColumns(rows, keys, weighted, prefix);
      assert geogs[..gi + 1][..gi] == geogs[..gi];
      allRows := allRows + t.value;
    }
    assert geogs[..|geogs|] == geogs;
    res := Ok(allRows);
  }

  /** Lines 159-188: the area passes, appended to `all_df_list` in configuration order. */
  method AreaPasses(rows: seq<Row>, areas: seq<Area>, keys: seq<string>, weighted: seq<string>, prefix: string)
    returns (out: seq<MetricRow>)
    requires HasNums(rows, keys) && HasNums(rows, weighted)
    requires areas != [] ==> WeightsPresent(rows, keys, prefix)
    requires areas != [] ==> rows == [] || FirstAbsent(WeightColumns(keys, prefix), weighted).None?
    requires AreaWeightsNonzero(rows, areas, keys, prefix)
    ensures out == AreaTables(rows, areas, keys, prefix)
  {
    out := [];
    for a := 0 to |areas|
      invariant out == AreaTables(rows, areas[..a], keys, prefix)
    {
      var area := areas[a];
      var areaRows := Where(rows, area.filter);
      WhereKeepsWeights(rows, area.filter, keys, prefix);
      WhereKeepsCells(rows, area.filter, "", weighted);
      if areaRows != [] {
        NonzeroDivisors(areaRows, keys, prefix);
      }
      var t := MetricJobsForArea(areaRows, area.name, keys, weighted, prefix);
      assert areas[..a + 1][..a] == areas[..a];
      out := out + t;
    }
    assert areas[..|areas|] == areas;
  }

  /** `metricJobsBy` (lines 81-194) over an already fetched layer. */
  method MetricJobsBy(src: Frame, cfg: JobsConfig) returns (res: Result<MetricTable>)
    requires Typed(src, cfg) && AreasDivisible(src, cfg)
    ensures res == JobsBySpec(src, cfg)
  {
    var fields := GeogAndQueryFields(cfg.geogFields, cfg.areas);
    var keys := Select(src.columns, cfg.keyPattern);
    fields := fields + keys;
    var weighted := Select(src.columns, cfg.weightedPattern);
    fields := fields + weighted;
    assert fields == KeptFields(src, cfg);
    var missing := FirstAbsent(fields, src.columns);
    if missing.Some? {
      return Err(MissingColumn(missing.value));
    }
    var rows := Project(src.rows, fields);
    ProjectedCells(src, cfg);
    res := Aggregate(rows, cfg, keys, weighted);
  }

  /** Lines 107-194: the passes over the kept records. */
  method Aggregate(rows: seq<Row>, cfg: JobsConfig, keys: seq<string>, weighted: seq<string>) returns (res: Result<MetricTable>)
    requires forall g :: g in cfg.geogFields ==> HasText(rows, g)
    requires HasNums(rows, keys) && HasNums(rows, weighted)
    requires AreaWeightsNonzero(rows, cfg.areas, keys, cfg.weightedPrefix)
    ensures res == AggregateSpec(rows, cfg, keys, weighted)
  {
    var outNames := JobsOutFields(cfg.outFieldPattern, keys);

    var fieldRows := FieldPasses(rows, cfg.geogFields, keys, weighted, cfg.weightedPrefix);
    if fieldRows.Err? {
      return Err(fieldRows.failure);
    }
    if cfg.geogFields == [] && cfg.areas != [] {
      return Err(UnboundWeightedFields);
    }
    var areaRows := AreaPasses(rows, cfg.areas, keys, weighted, cfg.weightedPrefix);
    if cfg.geogFields == [] {
      return Err(NothingToConcatenate);
    }
    assert outNames[1..] == OutColumns(cfg.outFieldPattern, |keys|);
    res := Ok(MetricTable(outNames[1..], fieldRows.value + areaRows));
  }

  // ---------------------------------------------------------------------
  // What a geography field's table holds

  predicate KeyCells(rows: seq<Row>, g: string, key: string, w: string)
  {
    HasText(rows, g) && HasNum(rows, key) && HasNum(rows, w)
  }

  /** The weighted values of one key field summed over the records whose
      title-cased geography is `name`. */
  function TitleTotal(rows: seq<Row>, all: seq<Row>, g: string, name: string, key: string, w: string): real
    requires KeyCells(rows, g, key, w) && HasText(all, g) && HasNum(all, w)
  {
    if rows == [] then 0.0
    else (if Title(rows[0].text[g]) == name then FieldCell(rows[0], all, g, key, w) else 0.0) +
         TitleTotal(rows[1..], all, g, name, key, w)
  }

  lemma {:induction false} TitledSum(rows: seq<Row>, all: seq<Row>, g: string, keys: seq<string>, prefix: string,
                                     name: string, j: nat)
    requires FieldCells(rows, g, keys, prefix) && FieldCells(all, g, keys, prefix) && j < |keys|
    ensures SumAt(TitleKeys(FieldTallies(rows, all, g, keys, prefix), |keys|), name, j) ==
            TitleTotal(rows, all, g, name, keys[j], WeightColumn(prefix, keys[j]))
  {
    if rows != [] {
      var ts := TitleKeys(FieldTallies(rows, all, g, keys, prefix), |keys|);
      assert ts[1..] == TitleKeys(FieldTallies(rows[1..], all, g, keys, prefix), |keys|);
      TitledSum(rows[1..], all, g, keys, prefix, name, j);
    }
  }

  /** Every record's title-cased name heads a row of its field's table. */
  lemma NamesCovered(rows: seq<Row>, g: string, keys: seq<string>, prefix: string)
    requires FieldCells(rows, g, keys, prefix)
    ensures forall i :: 0 <= i < |rows| ==>
      exists r :: r in FieldRows(rows, g, keys, prefix) && r.geoname == Title(rows[i].text[g])
  {
    var ts := TitleKeys(FieldTallies(rows, rows, g, keys, prefix), |keys|);
    var gs := GroupSum(ts, |keys|);
    var out := FieldRows(rows, g, keys, prefix);
    GroupSumValues(ts, |keys|);
    KeysAt(gs);
    forall i | 0 <= i < |rows| ensures exists r :: r in out && r.geoname == Title(rows[i].text[g]) {
      KeysAt(ts);
      assert ts[i].key == Title(rows[i].text[g]);
      assert ts[i].key in Keys(gs);
      var k :| 0 <= k < |gs| && gs[k].key == ts[i].key;
      assert out[k] in out;
    }
  }

  /** Every row of a field's table is named after some record. */
  lemma NamesFromRecords(rows: seq<Row>, g: string, keys: seq<string>, prefix: string)
    requires FieldCells(rows, g, keys, prefix)
    ensures forall r :: r in FieldRows(rows, g, keys, prefix) ==>
      exists i :: 0 <= i < |rows| && Title(rows[i].text[g]) == r.geoname
  {
    var ts := TitleKeys(FieldTallies(rows, rows, g, keys, prefix), |keys|);
    var gs := GroupSum(ts, |keys|);
    var out := FieldRows(rows, g, keys, prefix);
    GroupSumValues(ts, |keys|);
    KeysAt(ts);
    forall r | r in out ensures exists i :: 0 <= i < |rows| && Title(rows[i].text[g]) == r.geoname {
      var k :| 0 <= k < |out| && out[k] == r;
      assert gs[k].key in Keys(ts) by { KeysAt(gs); }
      var i :| 0 <= i < |ts| && ts[i].key == gs[k].key;
      assert Title(rows[i].text[g]) == r.geoname;
    }
  }

  /** Lines 151-153: a geography field's table has one row per title-cased
      geography name, and its value for each key field is the sum of the
      weighted values of the records bearing that name. */
  lemma FieldRowsSpec(rows: seq<Row>, g: string, keys: seq<string>, prefix: string)
    requires FieldCells(rows, g, keys, prefix)
    ensures var out := FieldRows(rows, g, keys, prefix);
      (forall a, b :: 0 <= a < b < |out| ==> out[a].geoname != out[b].geoname) &&
      (forall k, j :: 0 <= k < |out| && 0 <= j < |keys| ==>
         out[k].values[j] == TitleTotal(rows, rows, g, out[k].geoname, keys[j], WeightColumn(prefix, keys[j])))
  {
    var ts := TitleKeys(FieldTallies(rows, rows, g, keys, prefix), |keys|);
    var out := FieldRows(rows, g, keys, prefix);
    GroupSumSpec(ts, |keys|);
    forall k, j | 0 <= k < |out| && 0 <= j < |keys|
      ensures out[k].values[j] == TitleTotal(rows, rows, g, out[k].geoname, keys[j], WeightColumn(prefix, keys[j]))
    {
      TitledSum(rows, rows, g, keys, prefix, out[k].geoname, j);
    }
  }

  // ---------------------------------------------------------------------
  // The weighting formula as a weighted average

  /** The (key value, weight) pairs of the records whose raw geography is `raw`, in record order. */
  function Pairs(rows: seq<Row>, g: string, raw: string, key: string, w: string): seq<(real, real)>
    requires KeyCells(rows, g, key, w)
  {
    if rows == [] then []
    else (if rows[0].text[g] == raw then [(rows[0].num[key], rows[0].num[w])] else []) + Pairs(rows[1..], g, raw, key, w)
  }

  /** The total weight of a group. */
  function WeightSum(ps: seq<(real, real)>): real
  {
    if ps == [] then 0.0 else ps[0].1 + WeightSum(ps[1..])
  }

  /** The key values times their weights, summed over a group. */
  function ProductSum(ps: seq<(real, real)>): real
  {
    if ps == [] then 0.0 else ps[0].0 * ps[0].1 + ProductSum(ps[1..])
  }

  /** The weighted values of a group's members, summed, when the group's weight is t. */
  function ShareSum(ps: seq<(real, real)>, t: real): real
  {
    if ps == [] then 0.0 else Weighted(ps[0].0, ps[0].1, t) + ShareSum(ps[1..], t)
  }

  /** A group's weight is the weight total of its raw geography value. */
  lemma {:induction false} PairsWeight(rows: seq<Row>, g: string, raw: string, key: string, w: string)
    requires KeyCells(rows, g, key, w)
    ensures WeightSum(Pairs(rows, g, raw, key, w)) == ColumnTotal(rows, g, raw, w)
  {
    if rows != [] {
      PairsWeight(rows[1..], g, raw, key, w);
      var ps := Pairs(rows, g, raw, key, w);
      if rows[0].text[g] == raw {
        assert ps[1..] == Pairs(rows[1..], g, raw, key, w);
      } else {
        assert ps == Pairs(rows[1..], g, raw, key, w);
      }
    }
  }

  /** The members of a group are the records with its raw value, so they share those records' bounds. */
  lemma {:induction false} PairsBounded(rows: seq<Row>, g: string, raw: string, key: string, w: string, lo: real, hi: real)
    requires KeyCells(rows, g, key, w)
    requires forall i :: 0 <= i < |rows| && rows[i].text[g] == raw ==> rows[i].num[w] >= 0.0 && lo <= rows[i].num[key] <= hi
    ensures forall p :: p in Pairs(rows, g, raw, key, w) ==> p.1 >= 0.0 && lo <= p.0 <= hi
  {
    if rows != [] {
      PairsBounded(rows[1..], g, raw, key, w, lo, hi);
      var ps := Pairs(rows, g, raw, key, w);
      var rest := Pairs(rows[1..], g, raw, key, w);
      if rows[0].text[g] == raw {
        assert ps == [(rows[0].num[key], rows[0].num[w])] + rest;
      } else {
        assert ps == rest;
      }
    }
  }

  /** One step of the scaling: adding a member of key k and weight o whose weighted value is c. */
  lemma StepScaled(k: real, o: real, t: real, c: real, v': real, p': real, v: real, p: real)
    requires t != 0.0 && c * t == k * o && v' * t == p'
    requires v == c + v' && p == k * o + p'
    ensures v * t == p
  {
    assert (c + v') * t == c * t + v' * t;
  }

  /** Scaled back by the group's weight t, the weighted values v of a group
      give its weight-times-key total p; a weightless group's values are 0. */
  lemma {:induction false} ShareSumScaled(ps: seq<(real, real)>, t: real, v: real, p: real)
    requires v == ShareSum(ps, t) && p == ProductSum(ps)
    ensures t == 0.0 ==> v == 0.0
    ensures t != 0.0 ==> v * t == p
  {
    if ps != [] {
      var v', p' := ShareSum(ps[1..], t), ProductSum(ps[1..]);
      ShareSumScaled(ps[1..], t, v', p');
      if t != 0.0 {
        var k, o := ps[0].0, ps[0].1;
        var c := Weighted(k, o, t);
        StepScaled(k, o, t, c, v', p', v, p);
      }
    }
  }

  /** One step of the bound: adding a member of weight o and key k in [lo, hi]. */
  lemma StepBounds(lo: real, hi: real, k: real, o: real, t': real, p': real, t: real, p: real)
    requires o >= 0.0 && lo <= k <= hi && lo * t' <= p' <= hi * t'
    requires t == o + t' && p == k * o + p'
    ensures lo * t <= p <= hi * t
  {
    assert (k - lo) * o >= 0.0 && (hi - k) * o >= 0.0;
  }

  /** With nonnegative weights, a group's weight-times-key total p lies between
      its smallest and largest key value times its total weight t. */
  lemma {:induction false} ProductSumBounds(ps: seq<(real, real)>, lo: real, hi: real, t: real, p: real)
    requires forall q :: q in ps ==> q.1 >= 0.0 && lo <= q.0 <= hi
    requires t == WeightSum(ps) && p == ProductSum(ps)
    ensures t >= 0.0 && lo * t <= p <= hi * t
  {
    if ps != [] {
      var t', p' := WeightSum(ps[1..]), ProductSum(ps[1..]);
      ProductSumBounds(ps[1..], lo, hi, t', p');
      var k, o := ps[0].0, ps[0].1;
      StepBounds(lo, hi, k, o, t', p', t, p);
    }
  }

  /** The weighted values of a group add up to its weighted average, its
      key-times-weight total over its weight, which lies between its smallest
      and largest key value; a weightless group gives 0. */
  lemma GroupAverage(ps: seq<(real, real)>, lo: real, hi: real)
    requires forall q :: q in ps ==> q.1 >= 0.0 && lo <= q.0 <= hi
    ensures WeightSum(ps) == 0.0 ==> ShareSum(ps, WeightSum(ps)) == 0.0
    ensures WeightSum(ps) != 0.0 ==> ShareSum(ps, WeightSum(ps)) == ProductSum(ps) / WeightSum(ps)
    ensures WeightSum(ps) != 0.0 ==> lo <= ShareSum(ps, WeightSum(ps)) <= hi
  {
    var t, p := WeightSum(ps), ProductSum(ps);
    var v := ShareSum(ps, t);
    ShareSumScaled(ps, t, v, p);
    ProductSumBounds(ps, lo, hi, t, p);
    AverageBounds(v, t, p, lo, hi);
    GroupMean(ps);
  }

  /** A weighted group's values add up to its key-times-weight total over its weight. */
  lemma GroupMean(ps: seq<(real, real)>)
    ensures WeightSum(ps) != 0.0 ==> ShareSum(ps, WeightSum(ps)) == ProductSum(ps) / WeightSum(ps)
  {
    var t, p := WeightSum(ps), ProductSum(ps);
    var v := ShareSum(ps, t);
    ShareSumScaled(ps, t, v, p);
    if t != 0.0 {
      Unscale(v, t, p);
    }
  }

  /** Lines 128-146: within one raw geography value, the weighted values add
      up to the household-weighted average of the key field, so with
      nonnegative weights they lie between its smallest and largest value;
      a geography without weight contributes 0. Scaled back by the weight
      total t they give the key-times-weight total: their sum is that total over t. */
  lemma WeightedAverage(rows: seq<Row>, g: string, raw: string, key: string, w: string, lo: real, hi: real)
    requires KeyCells(rows, g, key, w)
    requires forall i :: 0 <= i < |rows| && rows[i].text[g] == raw ==> rows[i].num[w] >= 0.0 && lo <= rows[i].num[key] <= hi
    ensures var t := ColumnTotal(rows, g, raw, w);
      var v := ShareSum(Pairs(rows, g, raw, key, w), t);
      (t == 0.0 ==> v == 0.0) && (t != 0.0 ==> lo <= v <= hi && v == ProductSum(Pairs(rows, g, raw, key, w)) / t)
  {
    GroupMean(Pairs(rows, g, raw, key, w));
    PairsWeight(rows, g, raw, key, w);
    PairsBounded(rows, g, raw, key, w, lo, hi);
    GroupAverage(Pairs(rows, g, raw, key, w), lo, hi);
  }

  /** When a name has one spelling among the records, its title-cased total is
      the sum of that spelling's weighted values. */
  lemma {:induction false} SingleSpelling(rows: seq<Row>, all: seq<Row>, g: string, raw: string, key: string, w: string)
    requires KeyCells(rows, g, key, w) && HasText(all, g) && HasNum(all, w)
    requires forall i :: 0 <= i < |rows| && Title(rows[i].text[g]) == Title(raw) ==> rows[i].text[g] == raw
    ensures TitleTotal(rows, all, g, Title(raw), key, w) == ShareSum(Pairs(rows, g, raw, key, w), ColumnTotal(all, g, raw, w))
  {
    if rows != [] {
      SingleSpelling(rows[1..], all, g, raw, key, w);
      var ps := Pairs(rows, g, raw, key, w);
      if rows[0].text[g] == raw {
        assert ps[0] == (rows[0].num[key], rows[0].num[w]);
        assert ps[1..] == Pairs(rows[1..], g, raw, key, w);
      } else {
        assert ps == Pairs(rows[1..], g, raw, key, w);
      }
    }
  }

  /** A geography field's output value for a consistently spelled name is its
      records' key-times-weight total over their weight total, so it lies
      between their smallest and largest key value; without weight it is 0. */
  lemma FieldValueBounds(rows: seq<Row>, g: string, keys: seq<string>, prefix: string, raw: string, j: nat, lo: real, hi: real)
    requires FieldCells(rows, g, keys, prefix) && j < |keys|
    requires forall i :: 0 <= i < |rows| && Title(rows[i].text[g]) == Title(raw) ==> rows[i].text[g] == raw
    requires forall i :: 0 <= i < |rows| && rows[i].text[g] == raw ==>
      rows[i].num[WeightColumn(prefix, keys[j])] >= 0.0 && lo <= rows[i].num[keys[j]] <= hi
    ensures var out := FieldRows(rows, g, keys, prefix);
      forall k :: 0 <= k < |out| && out[k].geoname == Title(raw) ==>
      var t := ColumnTotal(rows, g, raw, WeightColumn(prefix, keys[j]));
      (t == 0.0 ==> out[k].values[j] == 0.0) &&
      (t != 0.0 ==> lo <= out[k].values[j] <= hi &&
                    out[k].values[j] == ProductSum(Pairs(rows, g, raw, keys[j], WeightColumn(prefix, keys[j]))) / t)
  {
    var w := WeightColumn(prefix, keys[j]);
    FieldRowsSpec(rows, g, keys, prefix);
    SingleSpelling(rows, rows, g, raw, keys[j], w);
    WeightedAverage(rows, g, raw, keys[j], w, lo, hi);
  }

  /** Two records of one place under two spellings, with their key values and household weights. */
  function OgdenRows(): seq<Row>
  {
    [Row(map["geog" := "ogden"], map["JOBAUTO_21" := 50.0, "HH_21" := 100.0]),
     Row(map["geog" := "OGDEN"], map["JOBAUTO_21" := 20.0, "HH_21" := 50.0])]
  }

  /** Each spelling is its own weight group (line 128). */
  lemma OgdenWeights()
    ensures WeightColumn("HH_", "JOBAUTO_21") == "HH_21"
    ensures FieldCells(OgdenRows(), "geog", ["JOBAUTO_21"], "HH_")
    ensures ColumnTotal(OgdenRows(), "geog", "ogden", "HH_21") == 100.0
    ensures ColumnTotal(OgdenRows(), "geog", "OGDEN", "HH_21") == 50.0
  {
    assert Suffix("JOBAUTO_21", 2) == "21";
    var rows := OgdenRows();
    assert rows[1..][1..] == [];
  }

  /** Each record keeps its whole key value: its weight is its whole group's weight. */
  lemma OgdenTallies()
    ensures FieldCells(OgdenRows(), "geog", ["JOBAUTO_21"], "HH_")
    ensures FieldTallies(OgdenRows(), OgdenRows(), "geog", ["JOBAUTO_21"], "HH_") ==
            [Tally("ogden", [50.0]), Tally("OGDEN", [20.0])]
  {
    OgdenWeights();
    var rows := OgdenRows();
    var ts := FieldTallies(rows, rows, "geog", ["JOBAUTO_21"], "HH_");
    assert ts[0].values[0] == FieldCell(rows[0], rows, "geog", "JOBAUTO_21", "HH_21") == 50.0;
    assert ts[1].values[0] == FieldCell(rows[1], rows, "geog", "JOBAUTO_21", "HH_21") == 20.0;
    assert ts[0] == Tally("ogden", [50.0]) && ts[1] == Tally("OGDEN", [20.0]);
  }

  /** The two spellings of one place are weighted in separate groups (line 128
      groups raw values), then summed under "Ogden" (line 153):
      50 * 100/100 + 20 * 50/50 = 70. */
  lemma OgdenExample()
    ensures WeightColumn("HH_", "JOBAUTO_21") == "HH_21"
    ensures FieldCells(OgdenRows(), "geog", ["JOBAUTO_21"], "HH_")
    ensures FieldRows(OgdenRows(), "geog", ["JOBAUTO_21"], "HH_") == [MetricRow("Ogden", "Ogden", [70.0])]
  {
    OgdenWeights();
    OgdenTallies();
    OgdenTitles();
    var ts := TitleKeys(FieldTallies(OgdenRows(), OgdenRows(), "geog", ["JOBAUTO_21"], "HH_"), 1);
    assert ts == [Tally("Ogden", [50.0]), Tally("Ogden", [20.0])];
    assert GroupSum(ts[1..], 1) == [Tally("Ogden", [20.0])];
    assert Plus([20.0], [50.0]) == [70.0];
    assert GroupSum(ts, 1) == [Tally("Ogden", [70.0])];
  }
}
