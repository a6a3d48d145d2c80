/** The rollup aggregator (`metricEstimatesProjections`): every key field is
    summed or averaged per raw value of each geography field and over the
    records of each named area, renamed after its last four characters. */
module Rollup {
  import opened Text
  import opened Frames
  import opened Groups
  import opened Columns

  /** The aggregation a rollup metric is configured with. */
  datatype Aggregation = Sum | Mean

  /** One rollup metric's configuration; `keyPattern` stands for `re.match`
      with the metric's key field pattern. */
  datatype RollupConfig = RollupConfig(
    geogFields: seq<string>,
    areas: seq<Area>,
    keyPattern: string -> bool,
    outFieldPattern: string,
    aggregation: Aggregation)

  function KeyFields(src: Frame, cfg: RollupConfig): seq<string>
  {
    Select(src.columns, cfg.keyPattern)
  }

  /** `df_flds` once complete: geography fields, new query fields, key fields. */
  function KeptFields(src: Frame, cfg: RollupConfig): seq<string>
  {
    cfg.geogFields + NewFields(AllQueryFields(cfg.areas), cfg.geogFields) + KeyFields(src, cfg)
  }

  /** The source table's cells have the types the aggregator reads them as. */
  predicate Typed(src: Frame, cfg: RollupConfig)
  {
    (forall g :: g in cfg.geogFields && g in src.columns ==> HasText(src.rows, g)) &&
    HasNums(src.rows, KeyFields(src, cfg))
  }

  /** The columns keep the roles the aggregator gives them apart: "geoname",
      the column it adds, is not a key field, a geography or query field, or
      the output name of a key field, and no geography or query field is a key field. */
  predicate Separated(src: Frame, cfg: RollupConfig)
  {
    !cfg.keyPattern("geoname") &&
    (forall c :: c in cfg.geogFields + AllQueryFields(cfg.areas) ==> !cfg.keyPattern(c) && c != "geoname") &&
    (forall k :: k in KeyFields(src, cfg) ==> RenamedField(cfg.outFieldPattern, k) != "geoname")
  }

  /** The output value columns: each key field renamed after its last four characters. */
  function RolledColumns(outFieldPattern: string, keys: seq<string>): seq<string>
  {
    seq(|keys|, j requires 0 <= j < |keys| => RenamedField(outFieldPattern, keys[j]))
  }

  // ---------------------------------------------------------------------
  // One group-by pass
  // ---------------------------------------------------------------------

  /** One record as a group-by input: its `field` cell and its key values. */
  function KeyTally(row: Row, field: string, keys: seq<string>): (t: Tally)
    requires field in row.text && forall j :: 0 <= j < |keys| ==> keys[j] in row.num
    ensures |t.values| == |keys|
  {
    Tally(row.text[field], seq(|keys|, j requires 0 <= j < |keys| => row.num[keys[j]]))
  }

  function KeyTallies(rows: seq<Row>, field: string, keys: seq<string>): (ts: seq<Tally>)
    requires HasText(rows, field) && HasNums(rows, keys)
    ensures |ts| == |rows| && Uniform(ts, |keys|)
    ensures forall i :: 0 <= i < |rows| ==> ts[i] == KeyTally(rows[i], field, keys)
  {
    seq(|rows|, i requires 0 <= i < |rows| => KeyTally(rows[i], field, keys))
  }

  /** The "first" aggregation of `geoname` for group `raw`: the cell of the
      group's first record ("" for a group with no record). */
  function FirstGeoname(rows: seq<Row>, field: string, raw: string): string
    requires HasText(rows, field) && HasText(rows, "geoname")
  {
    if rows == [] then ""
    else if rows[0].text[field] == raw then rows[0].text["geoname"]
    else FirstGeoname(rows[1..], field, raw)
  }

  /** A group's key values under the configured aggregation, from their sums
      and the group's record count. */
  function Aggregated(sums: seq<real>, count: nat, agg: Aggregation): (r: seq<real>)
    requires count > 0
    ensures |r| == |sums|
  {
    match agg
    case Sum => sums
    case Mean => seq(|sums|, j requires 0 <= j < |sums| => sums[j] / count as real)
  }

  /** Every group of a grouped table has at least one input row. */
  lemma GroupCounts(ts: seq<Tally>, w: nat)
    requires Uniform(ts, w)
    ensures forall k :: 0 <= k < |GroupSum(ts, w)| ==> CountAt(ts, GroupSum(ts, w)[k].key) > 0
  {
    var gs := GroupSum(ts, w);
    GroupSumValues(ts, w);
    KeysAt(gs);
    forall k | 0 <= k < |gs| ensures CountAt(ts, gs[k].key) > 0 {
      CountAtPositive(ts, gs[k].key);
    }
  }

  /** `groupby(field).agg(groupby_dict)` with the key fields aggregated and
      `geoname` taken "first", then `geoname` title-cased: one row per raw
      value of `field`, indexed by it. */
  function GroupRows(rows: seq<Row>, field: string, keys: seq<string>, agg: Aggregation): (out: seq<MetricRow>)
    requires HasText(rows, field) && HasText(rows, "geoname") && HasNums(rows, keys)
    ensures forall k :: 0 <= k < |out| ==> |out[k].values| == |keys|
  {
    var ts := KeyTallies(rows, field, keys);
    var gs := GroupSum(ts, |keys|);
    GroupCounts(ts, |keys|);
    seq(|gs|, k requires 0 <= k < |gs| =>
      MetricRow(gs[k].key, Title(FirstGeoname(rows, field, gs[k].key)), Aggregated(gs[k].values, CountAt(ts, gs[k].key), agg)))
  }

  lemma {:induction false} KeyTallySums(rows: seq<Row>, field: string, keys: seq<string>, raw: string, j: nat)
    requires HasText(rows, field) && HasNums(rows, keys) && j < |keys|
    ensures SumAt(KeyTallies(rows, field, keys), raw, j) == ColumnTotal(rows, field, raw, keys[j])
  {
    if rows != [] {
      assert KeyTallies(rows, field, keys)[1..] == KeyTallies(rows[1..], field, keys);
      KeyTallySums(rows[1..], field, keys, raw, j);
    }
  }

  lemma {:induction false} KeyTallyCount(rows: seq<Row>, field: string, keys: seq<string>, raw: string)
    requires HasText(rows, field) && HasNums(rows, keys)
    ensures CountAt(KeyTallies(rows, field, keys), raw) == RecordCount(rows, field, raw)
  {
    if rows != [] {
      assert KeyTallies(rows, field, keys)[1..] == KeyTallies(rows[1..], field, keys);
      KeyTallyCount(rows[1..], field, keys, raw);
    }
  }

  /** Where `geoname` was copied from `field`, the first `geoname` of a group
      that has records is the group's own raw value. */
  lemma {:induction false} FirstGeonameCopied(rows: seq<Row>, field: string, raw: string)
    requires HasText(rows, field) && HasText(rows, "geoname")
    requires forall i :: 0 <= i < |rows| ==> rows[i].text["geoname"] == rows[i].text[field]
    requires RecordCount(rows, field, raw) > 0
    ensures FirstGeoname(rows, field, raw) == raw
  {
    if rows[0].text[field] != raw {
      FirstGeonameCopied(rows[1..], field, raw);
    }
  }

  /** With `geoname` copied from `field`: the rows have distinct indexes, each
      index is the raw value of some record and each record's raw value
      indexes a row, and each row's geoname is its index title-cased. */
  lemma GroupRowsIndex(rows: seq<Row>, field: string, keys: seq<string>, agg: Aggregation)
    requires HasText(rows, field) && HasText(rows, "geoname") && HasNums(rows, keys)
    requires forall i :: 0 <= i < |rows| ==> rows[i].text["geoname"] == rows[i].text[field]
    ensures var out := GroupRows(rows, field, keys, agg);
      (forall a, b :: 0 <= a < b < |out| ==> out[a].index != out[b].index) &&
      (forall k :: 0 <= k < |out| ==> RecordCount(rows, field, out[k].index) > 0 && out[k].geoname == Title(out[k].index)) &&
      (forall i :: 0 <= i < |rows| ==> exists k :: 0 <= k < |out| && out[k].index == rows[i].text[field])
  {
    var ts := KeyTallies(rows, field, keys);
    var gs := GroupSum(ts, |keys|);
    var out := GroupRows(rows, field, keys, agg);
    GroupSumValues(ts, |keys|);
    forall k | 0 <= k < |out|
      ensures RecordCount(rows, field, out[k].index) > 0 && out[k].geoname == Title(out[k].index)
    {
      KeysAt(gs);
      CountAtPositive(ts, gs[k].key);
      KeyTallyCount(rows, field, keys, gs[k].key);
      FirstGeonameCopied(rows, field, gs[k].key);
    }
    forall i | 0 <= i < |rows| ensures exists k :: 0 <= k < |out| && out[k].index == rows[i].text[field] {
      KeysAt(ts);
      KeysAt(gs);
      assert ts[i].key == rows[i].text[field];
      assert rows[i].text[field] in Keys(gs);
      var k :| 0 <= k < |gs| && gs[k].key == rows[i].text[field];
      assert out[k].index == gs[k].key;
    }
  }

  /** The aggregate of key field `key` over the records whose `field` reads
      `raw`: their sum, or their unweighted mean. */
  function GroupValue(rows: seq<Row>, field: string, raw: string, key: string, agg: Aggregation): real
    requires HasText(rows, field) && HasNum(rows, key)
  {
    match agg
    case Sum => ColumnTotal(rows, field, raw, key)
    case Mean =>
      if RecordCount(rows, field, raw) == 0 then 0.0
      else ColumnTotal(rows, field, raw, key) / RecordCount(rows, field, raw) as real
  }

  /** Each row's value for key field j is the aggregate of that field over
      the records of its group. */
  lemma GroupRowsValues(rows: seq<Row>, field: string, keys: seq<string>, agg: Aggregation)
    requires HasText(rows, field) && HasText(rows, "geoname") && HasNums(rows, keys)
    ensures var out := GroupRows(rows, field, keys, agg);
      (forall k :: 0 <= k < |out| ==> RecordCount(rows, field, out[k].index) > 0) &&
      (forall k, j :: 0 <= k < |out| && 0 <= j < |keys| ==>
        out[k].values[j] == GroupValue(rows, field, out[k].index, keys[j], agg))
  {
    var ts := KeyTallies(rows, field, keys);
    var gs := GroupSum(ts, |keys|);
    var out := GroupRows(rows, field, keys, agg);
    GroupSumSpec(ts, |keys|);
    GroupCounts(ts, |keys|);
    forall k | 0 <= k < |out| ensures RecordCount(rows, field, out[k].index) > 0 {
      KeyTallyCount(rows, field, keys, gs[k].key);
    }
    forall k, j | 0 <= k < |out| && 0 <= j < |keys|
      ensures out[k].values[j] == GroupValue(rows, field, out[k].index, keys[j], agg)
    {
      assert out[k].index == gs[k].key;
      assert out[k].values == Aggregated(gs[k].values, CountAt(ts, gs[k].key), agg);
      KeyTallySums(rows, field, keys, gs[k].key, j);
      KeyTallyCount(rows, field, keys, gs[k].key);
      assert gs[k].values[j] == ColumnTotal(rows, field, out[k].index, keys[j]);
    }
  }

  /** One more value within the bracket keeps a bracketed total bracketed by one more count. */
  lemma BoundsStep(lo: real, hi: real, x: real, t': real, n': real, t: real, n: real)
    requires lo * n' <= t' <= hi * n' && lo <= x <= hi
    requires t == x + t' && n == n' + 1.0
    ensures lo * n <= t <= hi * n
  {
    assert lo * n == lo * n' + lo && hi * n == hi * n' + hi;
  }

  lemma {:induction false} ColumnTotalBounds(rows: seq<Row>, field: string, raw: string, key: string, lo: real, hi: real, t: real, n: real)
    requires HasText(rows, field) && HasNum(rows, key)
    requires forall i :: 0 <= i < |rows| && rows[i].text[field] == raw ==> lo <= rows[i].num[key] <= hi
    requires t == ColumnTotal(rows, field, raw, key) && n == RecordCount(rows, field, raw) as real
    ensures lo * n <= t <= hi * n
  {
    if rows != [] {
      var t', n' := ColumnTotal(rows[1..], field, raw, key), RecordCount(rows[1..], field, raw) as real;
      ColumnTotalBounds(rows[1..], field, raw, key, lo, hi, t', n');
      if rows[0].text[field] == raw {
        BoundsStep(lo, hi, rows[0].num[key], t', n', t, n);
      } else {
        assert t == t' && n == n';
      }
    }
  }

  /** An unweighted mean lies between the least and the greatest value it averages. */
  lemma MeanBounds(rows: seq<Row>, field: string, raw: string, key: string, lo: real, hi: real)
    requires HasText(rows, field) && HasNum(rows, key)
    requires forall i :: 0 <= i < |rows| && rows[i].text[field] == raw ==> lo <= rows[i].num[key] <= hi
    requires RecordCount(rows, field, raw) > 0
    ensures lo <= ColumnTotal(rows, field, raw, key) / RecordCount(rows, field, raw) as real <= hi
  {
    var t, n := ColumnTotal(rows, field, raw, key), RecordCount(rows, field, raw) as real;
    ColumnTotalBounds(rows, field, raw, key, lo, hi, t, n);
    var v := t / n;
    assert v * n == t;
    AverageBounds(v, n, t, lo, hi);
  }

  // ---------------------------------------------------------------------
  // The geography and area passes, as functions of the kept records
  // ---------------------------------------------------------------------

  /** Lines 232-253: the table of one geography field g. */
  function FieldRollup(rows: seq<Row>, g: string, keys: seq<string>, agg: Aggregation): seq<MetricRow>
    requires HasText(rows, g) && HasNums(rows, keys)
  {
    GroupRows(CopyText(rows, "geoname", g), g, keys, agg)
  }

  /** The records of an area as its pass groups them: every record tagged
      with the area's name, filtered field its query, and cut down to the key
      fields and `geoname`. */
  function AreaRecords(rows: seq<Row>, a: Area, keys: seq<string>): (r: seq<Row>)
    requires HasNums(rows, keys)
    ensures HasText(r, "geoname") && HasNums(r, keys)
  {
    var tagged := SetText(rows, "geoname", a.name);
    WhereKeepsCells(tagged, a.filter, "geoname", keys);
    ProjectKeepsCells(Where(tagged, a.filter), keys + ["geoname"], "geoname", keys);
    Project(Where(tagged, a.filter), keys + ["geoname"])
  }

  /** Lines 262-279: the table of one area. */
  function AreaRollup(rows: seq<Row>, a: Area, keys: seq<string>, agg: Aggregation): seq<MetricRow>
    requires HasNums(rows, keys)
  {
    GroupRows(AreaRecords(rows, a, keys), "geoname", keys, agg)
  }

  function FieldRollups(rows: seq<Row>, geogs: seq<string>, keys: seq<string>, agg: Aggregation): (out: seq<MetricRow>)
    requires forall g :: g in geogs ==> HasText(rows, g)
    requires HasNums(rows, keys)
  {
    if geogs == [] then []
    else
      var n := |geogs| - 1;
      FieldRollups(rows, geogs[..n], keys, agg) + FieldRollup(rows, geogs[n], keys, agg)
  }

  function AreaRollups(rows: seq<Row>, areas: seq<Area>, keys: seq<string>, agg: Aggregation): (out: seq<MetricRow>)
    requires HasNums(rows, keys)
  {
    if areas == [] then []
    else
      var n := |areas| - 1;
      AreaRollups(rows, areas[..n], keys, agg) + AreaRollup(rows, areas[n], keys, agg)
  }

  lemma FieldRollupsStep(rows: seq<Row>, geogs: seq<string>, n: nat, keys: seq<string>, agg: Aggregation)
    requires forall g :: g in geogs ==> HasText(rows, g)
    requires HasNums(rows, keys) && n < |geogs|
    ensures FieldRollups(rows, geogs[..n + 1], keys, agg) == FieldRollups(rows, geogs[..n], keys, agg) + FieldRollup(rows, geogs[n], keys, agg)
  {
    assert geogs[..n + 1][..n] == geogs[..n];
  }

  lemma AreaRollupsStep(rows: seq<Row>, areas: seq<Area>, n: nat, keys: seq<string>, agg: Aggregation)
    requires HasNums(rows, keys) && n < |areas|
    ensures AreaRollups(rows, areas[..n + 1], keys, agg) == AreaRollups(rows, areas[..n], keys, agg) + AreaRollup(rows, areas[n], keys, agg)
  {
    assert areas[..n + 1][..n] == areas[..n];
  }

  /** After `ato_df[df_flds]`, the kept records still carry every cell the aggregator reads. */
  lemma ProjectedCells(src: Frame, cfg: RollupConfig)
    requires Typed(src, cfg) && FirstAbsent(KeptFields(src, cfg), src.columns).None?
    ensures var rows := Project(src.rows, KeptFields(src, cfg));
      (forall g :: g in cfg.geogFields ==> HasText(rows, g)) && HasNums(rows, KeyFields(src, cfg))
  {
    var fields := KeptFields(src, cfg);
    forall g | g in cfg.geogFields ensures HasText(Project(src.rows, fields), g) {
      assert g in fields;
      ProjectKeepsCells(src.rows, fields, g, []);
    }
    ProjectKeepsCells(src.rows, fields, "", KeyFields(src, cfg));
  }

  /** `metricEstimatesProjections` as a function: the error it raises first,
      or the concatenated per-field and per-area tables. */
  function RollupSpec(src: Frame, cfg: RollupConfig): Result<MetricTable>
    requires Typed(src, cfg)
  {
    var fields := KeptFields(src, cfg);
    var missing := FirstAbsent(fields, src.columns);
    if missing.Some? then Err(MissingColumn(missing.value))
    else
      ProjectedCells(src, cfg);
      AggregateSpec(Project(src.rows, fields), cfg, KeyFields(src, cfg))
  }

  /** The passes over the kept records and the concatenation of their tables. */
  function AggregateSpec(rows: seq<Row>, cfg: RollupConfig, keys: seq<string>): Result<MetricTable>
    requires forall g :: g in cfg.geogFields ==> HasText(rows, g)
    requires HasNums(rows, keys)
  {
    if cfg.geogFields == [] && cfg.areas == [] then Err(NothingToConcatenate)
    else
      Ok(MetricTable(RolledColumns(cfg.outFieldPattern, keys),
        FieldRollups(rows, cfg.geogFields, keys, cfg.aggregation) + AreaRollups(rows, cfg.areas, keys, cfg.aggregation)))
  }

  // ---------------------------------------------------------------------
  // What the tables hold
  // ---------------------------------------------------------------------

  /** A geography field's table has one row per raw value of the field: the
      indexes are distinct, each is the value of some record, each record's
      value indexes a row, and each row's geoname is its index title-cased. */
  lemma FieldRollupIndex(rows: seq<Row>, g: string, keys: seq<string>, agg: Aggregation)
    requires HasText(rows, g) && HasNums(rows, keys)
    ensures var out := FieldRollup(rows, g, keys, agg);
      (forall a, b :: 0 <= a < b < |out| ==> out[a].index != out[b].index) &&
      (forall k :: 0 <= k < |out| ==> RecordCount(rows, g, out[k].index) > 0 && out[k].geoname == Title(out[k].index)) &&
      (forall i :: 0 <= i < |rows| ==> exists k :: 0 <= k < |out| && out[k].index == rows[i].text[g])
  {
    var copy := CopyText(rows, "geoname", g);
    GroupRowsIndex(copy, g, keys, agg);
    var out := FieldRollup(rows, g, keys, agg);
    forall k | 0 <= k < |out| ensures RecordCount(rows, g, out[k].index) > 0 {
      CountsAgree(copy, rows, g, out[k].index);
    }
  }

  /** Each value of a geography field's table aggregates its key field over
      the records whose field reads the row's index. */
  lemma FieldRollupValues(rows: seq<Row>, g: string, keys: seq<string>, agg: Aggregation)
    requires HasText(rows, g) && HasNums(rows, keys)
    ensures var out := FieldRollup(rows, g, keys, agg);
      forall k, j :: 0 <= k < |out| && 0 <= j < |keys| ==>
        out[k].values[j] == GroupValue(rows, g, out[k].index, keys[j], agg)
  {
    var copy := CopyText(rows, "geoname", g);
    GroupRowsValues(copy, g, keys, agg);
    var out := FieldRollup(rows, g, keys, agg);
    forall k, j | 0 <= k < |out| && 0 <= j < |keys|
      ensures out[k].values[j] == GroupValue(rows, g, out[k].index, keys[j], agg)
    {
      TotalsAgree(copy, rows, g, out[k].index, keys[j]);
      CountsAgree(copy, rows, g, out[k].index);
    }
  }

  /** Every record an area's query keeps carries the area's name as `geoname`. */
  lemma AreaTagged(rows: seq<Row>, a: Area)
    ensures var inArea := Where(SetText(rows, "geoname", a.name), a.filter);
      HasText(inArea, "geoname") && forall i :: 0 <= i < |inArea| ==> inArea[i].text["geoname"] == a.name
  {
    var tagged := SetText(rows, "geoname", a.name);
    var inArea := Where(tagged, a.filter);
    forall i | 0 <= i < |inArea| ensures "geoname" in inArea[i].text && inArea[i].text["geoname"] == a.name {
      assert inArea[i] in tagged;
      var j :| 0 <= j < |tagged| && tagged[j] == inArea[i];
    }
  }

  /** An area's table has no row when no record passes its query, and
      otherwise exactly one: indexed by the area's name and named by its
      title-cased form. */
  lemma AreaRollupIndex(rows: seq<Row>, a: Area, keys: seq<string>, agg: Aggregation)
    requires HasNums(rows, keys)
    ensures var inArea := Where(SetText(rows, "geoname", a.name), a.filter);
      var out := AreaRollup(rows, a, keys, agg);
      |out| == (if inArea == [] then 0 else 1) &&
      (inArea != [] ==> out[0].index == a.name && out[0].geoname == Title(a.name))
  {
    var inArea := Where(SetText(rows, "geoname", a.name), a.filter);
    var recs := AreaRecords(rows, a, keys);
    var out := AreaRollup(rows, a, keys, agg);
    AreaTagged(rows, a);
    assert forall i :: 0 <= i < |recs| ==> recs[i].text["geoname"] == a.name;
    GroupSumOneKey(KeyTallies(recs, "geoname", keys), |keys|, a.name);
    GroupRowsIndex(recs, "geoname", keys, agg);
    if inArea != [] {
      CountUniform(recs, "geoname", a.name, out[0].index);
    }
  }

  /** The row of an area aggregates each key field over every record its
      query keeps: their sum, or their sum over their number. */
  lemma AreaRollupValues(rows: seq<Row>, a: Area, keys: seq<string>, agg: Aggregation)
    requires HasNums(rows, keys)
    ensures var inArea := Where(SetText(rows, "geoname", a.name), a.filter);
      var out := AreaRollup(rows, a, keys, agg);
      HasText(inArea, "geoname") && HasNums(inArea, keys) &&
      (inArea != [] ==>
         |out| == 1 && RecordCount(inArea, "geoname", a.name) == |inArea| &&
         forall j :: 0 <= j < |keys| ==> out[0].values[j] == GroupValue(inArea, "geoname", a.name, keys[j], agg))
  {
    var tagged := SetText(rows, "geoname", a.name);
    var inArea := Where(tagged, a.filter);
    WhereKeepsCells(tagged, a.filter, "geoname", keys);
    AreaTagged(rows, a);
    AreaRollupIndex(rows, a, keys, agg);
    if inArea != [] {
      var recs := AreaRecords(rows, a, keys);
      var out := AreaRollup(rows, a, keys, agg);
      GroupRowsValues(recs, "geoname", keys, agg);
      CountUniform(inArea, "geoname", a.name, a.name);
      forall j | 0 <= j < |keys| ensures out[0].values[j] == GroupValue(inArea, "geoname", a.name, keys[j], agg) {
        TotalsAgree(recs, inArea, "geoname", a.name, keys[j]);
        CountsAgree(recs, inArea, "geoname", a.name);
      }
    }
  }

  /** Two raw values that differ only in letter case stay two rows of a
      geography table, both with the same title-cased geoname; "ogden" and
      "OGDEN" are such a pair. */
  lemma SpellingsStaySplit(rows: seq<Row>, g: string, keys: seq<string>, agg: Aggregation, i: nat, i': nat)
    requires HasText(rows, g) && HasNums(rows, keys) && i < |rows| && i' < |rows|
    requires rows[i].text[g] != rows[i'].text[g] && Title(rows[i].text[g]) == Title(rows[i'].text[g])
    ensures var out := FieldRollup(rows, g, keys, agg);
      exists a, b :: 0 <= a < b < |out| && out[a].geoname == Title(rows[i].text[g]) && out[b].geoname == Title(rows[i].text[g])
  {
    var out := FieldRollup(rows, g, keys, agg);
    FieldRollupIndex(rows, g, keys, agg);
    var a :| 0 <= a < |out| && out[a].index == rows[i].text[g];
    var b :| 0 <= b < |out| && out[b].index == rows[i'].text[g];
    assert a != b;
    assert out[a].geoname == Title(rows[i].text[g]) && out[b].geoname == Title(rows[i].text[g]);
    if b < a {
      a, b := b, a;
    }
  }

  /** The mean aggregation averages the records of a group, unweighted:
      two records of one spelling give one row holding the mean of their values. */
  lemma MeanOfTwo(rows: seq<Row>, g: string, key: string)
    requires |rows| == 2 && HasText(rows, g) && HasNum(rows, key)
    requires rows[0].text[g] == rows[1].text[g]
    ensures var raw := rows[0].text[g];
      FieldRollup(rows, g, [key], Mean) == [MetricRow(raw, Title(raw), [(rows[0].num[key] + rows[1].num[key]) / 2.0])]
  {
    var raw := rows[0].text[g];
    var out := FieldRollup(rows, g, [key], Mean);
    OneSpellingOneRow(rows, g, [key], Mean, raw);
    FieldRollupIndex(rows, g, [key], Mean);
    assert out[0].index == raw;
    FieldRollupValues(rows, g, [key], Mean);
    PairTotals(rows, g, raw, key);
    assert out[0].values == [(rows[0].num[key] + rows[1].num[key]) / 2.0];
  }

  /** Records that all carry one raw value make a table of one row. */
  lemma OneSpellingOneRow(rows: seq<Row>, g: string, keys: seq<string>, agg: Aggregation, raw: string)
    requires HasText(rows, g) && HasNums(rows, keys)
    requires forall i :: 0 <= i < |rows| ==> rows[i].text[g] == raw
    ensures |FieldRollup(rows, g, keys, agg)| == if rows == [] then 0 else 1
  {
    var copy := CopyText(rows, "geoname", g);
    var ts := KeyTallies(copy, g, keys);
    assert forall i :: 0 <= i < |ts| ==> ts[i].key == copy[i].text[g] == raw;
    GroupSumOneKey(ts, |keys|, raw);
  }

  /** The total and the count of a pair of records with one raw value. */
  lemma PairTotals(rows: seq<Row>, g: string, raw: string, key: string)
    requires |rows| == 2 && HasText(rows, g) && HasNum(rows, key)
    requires rows[0].text[g] == raw && rows[1].text[g] == raw
    ensures ColumnTotal(rows, g, raw, key) == rows[0].num[key] + rows[1].num[key]
    ensures RecordCount(rows, g, raw) == 2
  {
    var tail := rows[1..];
    assert tail[1..] == [];
    assert ColumnTotal(tail, g, raw, key) == rows[1].num[key];
    assert RecordCount(tail, g, raw) == 1;
  }

  // ---------------------------------------------------------------------
  // The aggregator, pass by pass
  // ---------------------------------------------------------------------

  /** The records agree cell for cell, except perhaps in their "geoname" text cell. */
  predicate SameButGeoname(rows: seq<Row>, kept: seq<Row>)
  {
    |rows| == |kept| &&
    forall i :: 0 <= i < |rows| ==> rows[i].num == kept[i].num && rows[i].text - {"geoname"} == kept[i].text - {"geoname"}
  }

  lemma UpdateAgrees(a: map<string, string>, b: map<string, string>, k: string, v: string)
    requires a - {k} == b - {k}
    ensures a[k := v] == b[k := v]
    ensures a[k := v] - {k} == b - {k}
  {
    forall x | x != k ensures (x in a <==> x in b) && (x in a ==> a[x] == b[x]) {
      assert x in a <==> x in a - {k};
      assert x in b <==> x in b - {k};
      if x in a {
        assert (a - {k})[x] == a[x] && (b - {k})[x] == b[x];
      }
    }
  }

  /** `ato_df["geoname"] = ato_df[g]` gives the same records whatever `geoname` held before. */
  lemma CopyOverwrites(rows: seq<Row>, kept: seq<Row>, g: string)
    requires SameButGeoname(rows, kept) && HasText(kept, g) && g != "geoname"
    ensures HasText(rows, g)
    ensures CopyText(rows, "geoname", g) == CopyText(kept, "geoname", g)
    ensures SameButGeoname(CopyText(kept, "geoname", g), kept)
  {
    forall i | 0 <= i < |rows| ensures g in rows[i].text && rows[i].text[g] == kept[i].text[g] {
      assert g in kept[i].text - {"geoname"};
      assert (rows[i].text - {"geoname"})[g] == rows[i].text[g];
    }
    var a, b := CopyText(rows, "geoname", g), CopyText(kept, "geoname", g);
    forall i | 0 <= i < |rows| ensures a[i] == b[i] && b[i].text - {"geoname"} == kept[i].text - {"geoname"} {
      UpdateAgrees(rows[i].text, kept[i].text, "geoname", kept[i].text[g]);
      UpdateAgrees(kept[i].text, kept[i].text, "geoname", kept[i].text[g]);
    }
  }

  /** `ato_df["geoname"] = name` gives the same records whatever `geoname` held before. */
  lemma SetOverwrites(rows: seq<Row>, kept: seq<Row>, name: string)
    requires SameButGeoname(rows, kept)
    ensures SetText(rows, "geoname", name) == SetText(kept, "geoname", name)
    ensures SameButGeoname(SetText(kept, "geoname", name), kept)
  {
    var a, b := SetText(rows, "geoname", name), SetText(kept, "geoname", name);
    forall i | 0 <= i < |rows| ensures a[i] == b[i] && b[i].text - {"geoname"} == kept[i].text - {"geoname"} {
      UpdateAgrees(rows[i].text, kept[i].text, "geoname", name);
      UpdateAgrees(kept[i].text, kept[i].text, "geoname", name);
    }
  }

  /** Lines 234-253: one geography field's pass over records whose `geoname`
      was just copied from g. The output columns are `geoname` first, then
      the renamed key fields; every other column is dropped. */
  method RollupField(rows: seq<Row>, columns: seq<string>, g: string, keys: seq<string>,
                     rename: map<string, string>, keyPattern: string -> bool, agg: Aggregation)
    returns (names: seq<string>, table: seq<MetricRow>)
    requires HasText(rows, g) && HasText(rows, "geoname") && HasNums(rows, keys)
    requires AggregatedColumns(columns, keyPattern) == keys + ["geoname"]
    requires RenamesKeys(rename, keys)
    ensures names == ["geoname"] + RenameAll(keys, rename)
    ensures table == GroupRows(rows, g, keys, agg)
  {
    var aggregated, dropped := AggregationPlan(columns, keyPattern);
    table := GroupRows(rows, g, keys, agg);
    names := FieldOutputColumns(aggregated, rename);
    RetainedRenamedKeys(aggregated, rename);
    KeysThenGeoname(keys);
  }

  /** Lines 266-279: one area's pass over the records its query keeps. Every
      column but the key fields and `geoname` is dropped before grouping;
      the output columns are the renamed key fields, then `geoname`. */
  method RollupArea(rows: seq<Row>, columns: seq<string>, keys: seq<string>,
                    rename: map<string, string>, keyPattern: string -> bool, agg: Aggregation)
    returns (names: seq<string>, table: seq<MetricRow>)
    requires HasText(rows, "geoname") && HasNums(rows, keys)
    requires AggregatedColumns(columns, keyPattern) == keys + ["geoname"]
    requires "geoname" !in rename
    ensures names == RenameAll(keys, rename) + ["geoname"]
    ensures table == GroupRows(Project(rows, keys + ["geoname"]), "geoname", keys, agg)
  {
    var aggregated, dropped := AggregationPlan(columns, keyPattern);
    var survivors := KeepColumns(columns, dropped);
    assert forall c :: c in survivors <==> c in aggregated;
    var areaRows := Project(rows, survivors);
    ProjectSameMembers(rows, survivors, keys + ["geoname"]);
    ProjectKeepsCells(rows, keys + ["geoname"], "geoname", keys);
    table := GroupRows(areaRows, "geoname", keys, agg);
    names := RenameAll(aggregated, rename);
  }

  /** What the passes need of the rename map: it renames every key field,
      and neither renames "geoname" nor renames anything to it. */
  predicate RenamesKeys(rename: map<string, string>, keys: seq<string>)
  {
    "geoname" !in rename && (forall c :: c in rename ==> rename[c] != "geoname") &&
    (forall k :: k in keys ==> k in rename)
  }

  /** Lines 230-255: the geography passes, each overwriting `geoname` of the
      records it was given (appending that column the first time) and adding
      one table. */
  method GeographyPasses(kept: seq<Row>, fields: seq<string>, geogs: seq<string>, keys: seq<string>,
                         rename: map<string, string>, keyPattern: string -> bool, agg: Aggregation)
    returns (rows: seq<Row>, columns: seq<string>, all: seq<MetricRow>)
    requires forall g :: g in geogs ==> HasText(kept, g) && g != "geoname"
    requires HasNums(kept, keys) && RenamesKeys(rename, keys)
    requires "geoname" !in fields && AggregatedColumns(fields + ["geoname"], keyPattern) == keys + ["geoname"]
    ensures SameButGeoname(rows, kept)
    ensures columns == fields + (if geogs == [] then [] else ["geoname"])
    ensures all == FieldRollups(kept, geogs, keys, agg)
  {
    rows, columns, all := kept, fields, [];
    for gi := 0 to |geogs|
      invariant SameButGeoname(rows, kept)
      invariant columns == fields + (if gi == 0 then [] else ["geoname"])
      invariant all == FieldRollups(kept, geogs[..gi], keys, agg)
    {
      var g := geogs[gi];
      CopyOverwrites(rows, kept, g);
      rows := CopyText(rows, "geoname", g);
      if "geoname" !in columns {
        columns := columns + ["geoname"];
      }
      var names, table := RollupField(rows, columns, g, keys, rename, keyPattern, agg);
      FieldRollupsStep(kept, geogs, gi, keys, agg);
      all := all + table;
    }
    assert geogs[..|geogs|] == geogs;
  }

  /** Lines 258-282: the area passes, each setting `geoname` of the records
      it was given to the area's name (appending that column if no pass did)
      and adding one table. */
  method AreaPasses(rows0: seq<Row>, kept: seq<Row>, columns0: seq<string>, fields: seq<string>, areas: seq<Area>,
                    keys: seq<string>, rename: map<string, string>, keyPattern: string -> bool, agg: Aggregation)
    returns (rows: seq<Row>, columns: seq<string>, all: seq<MetricRow>)
    requires SameButGeoname(rows0, kept) && HasNums(kept, keys) && RenamesKeys(rename, keys)
    requires columns0 == fields || columns0 == fields + ["geoname"]
    requires "geoname" !in fields && AggregatedColumns(fields + ["geoname"], keyPattern) == keys + ["geoname"]
    ensures all == AreaRollups(kept, areas, keys, agg)
  {
    rows, columns, all := rows0, columns0, [];
    for ai := 0 to |areas|
      invariant SameButGeoname(rows, kept)
      invariant columns == fields || columns == fields + ["geoname"]
      invariant all == AreaRollups(kept, areas[..ai], keys, agg)
    {
      var area := areas[ai];
      SetOverwrites(rows, kept, area.name);
      rows := SetText(rows, "geoname", area.name);
      if "geoname" !in columns {
        columns := columns + ["geoname"];
      }
      var inArea := Where(rows, area.filter);
      WhereKeepsCells(rows, area.filter, "geoname", keys);
      var names, table := RollupArea(inArea, columns, keys, rename, keyPattern, agg);
      assert table == AreaRollup(kept, area, keys, agg);
      AreaRollupsStep(kept, areas, ai, keys, agg);
      all := all + table;
    }
    assert areas[..|areas|] == areas;
  }

  /** Under `Separated`, the kept columns with `geoname` appended are planned
      as the passes expect: the key fields and `geoname` are aggregated. */
  lemma SeparatedLayout(src: Frame, cfg: RollupConfig)
    requires Separated(src, cfg)
    ensures "geoname" !in KeptFields(src, cfg)
    ensures AggregatedColumns(KeptFields(src, cfg) + ["geoname"], cfg.keyPattern) == KeyFields(src, cfg) + ["geoname"]
    ensures forall g :: g in cfg.geogFields ==> g != "geoname"
  {
    var front := cfg.geogFields + NewFields(AllQueryFields(cfg.areas), cfg.geogFields);
    var keys := KeyFields(src, cfg);
    AppendedFields(cfg.geogFields, AllQueryFields(cfg.areas));
    forall i | 0 <= i < |front| ensures !cfg.keyPattern(front[i]) && front[i] != "geoname" {
      assert front[i] in cfg.geogFields + AllQueryFields(cfg.areas);
    }
    forall i | 0 <= i < |keys| ensures cfg.keyPattern(keys[i]) {
      assert keys[i] in keys;
    }
    PlanOfLayout(front, keys, cfg.keyPattern);
    PlanWithGeoname(front + keys, cfg.keyPattern);
    forall g | g in cfg.geogFields ensures g != "geoname" {
      assert g in cfg.geogFields + AllQueryFields(cfg.areas);
    }
  }

  /** The aggregator: the first missing column, or what the passes over the kept records give. */
  method MetricEstimatesProjections(src: Frame, cfg: RollupConfig) returns (res: Result<MetricTable>)
    requires Typed(src, cfg) && Separated(src, cfg)
    ensures res == RollupSpec(src, cfg)
  {
    var fields := GeogAndQueryFields(cfg.geogFields, cfg.areas);
    var keys := Select(src.columns, cfg.keyPattern);
    fields := fields + keys;
    assert fields == KeptFields(src, cfg);
    var missing := FirstAbsent(fields, src.columns);
    if missing.Some? {
      return Err(MissingColumn(missing.value));
    }
    var kept := Project(src.rows, fields);
    ProjectedCells(src, cfg);
    SeparatedLayout(src, cfg);
    res := Aggregate(kept, fields, keys, cfg);
  }

  /** Lines 220-289: the rename map, the passes and the concatenation. */
  method Aggregate(kept: seq<Row>, fields: seq<string>, keys: seq<string>, cfg: RollupConfig) returns (res: Result<MetricTable>)
    requires forall g :: g in cfg.geogFields ==> HasText(kept, g) && g != "geoname"
    requires HasNums(kept, keys)
    requires "geoname" !in fields && AggregatedColumns(fields + ["geoname"], cfg.keyPattern) == keys + ["geoname"]
    requires forall k :: k in keys ==> k != "geoname" && RenamedField(cfg.outFieldPattern, k) != "geoname"
    ensures res == AggregateSpec(kept, cfg, keys)
  {
    var rename := RenameMap(keys, cfg.outFieldPattern);
    var rows, columns, fieldTables := GeographyPasses(kept, fields, cfg.geogFields, keys, rename, cfg.keyPattern, cfg.aggregation);
    var _, _, areaTables := AreaPasses(rows, kept, columns, fields, cfg.areas, keys, rename, cfg.keyPattern, cfg.aggregation);
    if cfg.geogFields == [] && cfg.areas == [] {
      return Err(NothingToConcatenate);
    }
    var outColumns := RenameAll(keys, rename);
    assert outColumns == RolledColumns(cfg.outFieldPattern, keys);
    res := Ok(MetricTable(outColumns, fieldTables + areaTables));
  }
}
