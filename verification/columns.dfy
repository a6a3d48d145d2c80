/** Column bookkeeping shared by the two aggregators: which source columns
    are kept, what the output columns are called, and how the rollup's
    grouped columns are renamed, pruned and reordered. */
module Columns {
  import opened Text
  import opened Frames

  /** The query fields of all areas, area by area, in configuration order. */
  function AllQueryFields(areas: seq<Area>): seq<string>
  {
    if areas == [] then [] else AllQueryFields(areas[..|areas| - 1]) + areas[|areas| - 1].queryFields
  }

  /** The first occurrence of every element of xs that is not in `exclude`, in order. */
  function NewFields(xs: seq<string>, exclude: seq<string>): (r: seq<string>)
  {
    if xs == [] then []
    else
      var prefix := xs[..|xs| - 1];
      var x := xs[|xs| - 1];
      if x in exclude || x in prefix then NewFields(prefix, exclude) else NewFields(prefix, exclude) + [x]
  }

  predicate NoDuplicates(xs: seq<string>)
  {
    forall i, j :: 0 <= i < j < |xs| ==> xs[i] != xs[j]
  }

  /** The added fields are exactly the new ones, each once, none already excluded. */
  lemma {:induction false} NewFieldsSpec(xs: seq<string>, exclude: seq<string>)
    ensures NoDuplicates(NewFields(xs, exclude))
    ensures forall x :: x in NewFields(xs, exclude) <==> x in xs && x !in exclude
  {
    if xs != [] {
      var prefix := xs[..|xs| - 1];
      assert xs == prefix + [xs[|xs| - 1]];
      NewFieldsSpec(prefix, exclude);
    }
  }

  /** Adding one more candidate field extends the new fields by it exactly when it is fresh. */
  lemma NewFieldsStep(seen: seq<string>, x: string, exclude: seq<string>)
    ensures NewFields(seen + [x], exclude) ==
      if x in exclude || x in NewFields(seen, exclude) then NewFields(seen, exclude) else NewFields(seen, exclude) + [x]
  {
    NewFieldsSpec(seen, exclude);
    assert (seen + [x])[..|seen|] == seen;
  }

  /** `df_flds`: the geography fields, then every area query field not yet listed
      (the key and weighted fields are appended by the caller). */
  method GeogAndQueryFields(geogFields: seq<string>, areas: seq<Area>) returns (fields: seq<string>)
    ensures fields == geogFields + NewFields(AllQueryFields(areas), geogFields)
    ensures forall i, j :: |geogFields| <= i < j < |fields| ==> fields[i] != fields[j]
    ensures forall i :: |geogFields| <= i < |fields| ==> fields[i] !in geogFields
    ensures forall c :: c in fields <==> c in geogFields || c in AllQueryFields(areas)
  {
    fields := geogFields;
    for a := 0 to |areas|
      invariant fields == geogFields + NewFields(AllQueryFields(areas[..a]), geogFields)
    {
      assert areas[..a + 1][..a] == areas[..a];
      fields := AddQueryFields(fields, geogFields, AllQueryFields(areas[..a]), areas[a].queryFields);
    }
    assert areas[..|areas|] == areas;
    AppendedFields(geogFields, AllQueryFields(areas));
  }

  /** Lines 210-212 for one area: each of its query fields not yet listed is appended. */
  method AddQueryFields(fields0: seq<string>, geogFields: seq<string>, ghost before: seq<string>, queryFields: seq<string>)
    returns (fields: seq<string>)
    requires fields0 == geogFields + NewFields(before, geogFields)
    ensures fields == geogFields + NewFields(before + queryFields, geogFields)
  {
    fields := fields0;
    assert before + queryFields[..0] == before;
    for q := 0 to |queryFields|
      invariant fields == geogFields + NewFields(before + queryFields[..q], geogFields)
    {
      ghost var seen := before + queryFields[..q];
      NewFieldsStep(seen, queryFields[q], geogFields);
      assert before + queryFields[..q + 1] == seen + [queryFields[q]];
      if queryFields[q] !in fields {
        fields := fields + [queryFields[q]];
      }
    }
    assert queryFields[..|queryFields|] == queryFields;
  }

  lemma AppendedFields(geogFields: seq<string>, queryFields: seq<string>)
    ensures var fields := geogFields + NewFields(queryFields, geogFields);
      (forall i, j :: |geogFields| <= i < j < |fields| ==> fields[i] != fields[j]) &&
      (forall i :: |geogFields| <= i < |fields| ==> fields[i] !in geogFields) &&
      (forall c :: c in fields <==> c in geogFields || c in queryFields)
  {
    var added := NewFields(queryFields, geogFields);
    NewFieldsSpec(queryFields, geogFields);
    var fields := geogFields + added;
    assert forall i :: |geogFields| <= i < |fields| ==> fields[i] == added[i - |geogFields|];
  }

  /** The output name of key field number i of a ratio metric: the first is the
      current year, the others are numbered forecast years. */
  function OutFieldName(outFieldPattern: string, i: nat): string
  {
    if i == 0 then outFieldPattern + "CY" else outFieldPattern + "FY" + NatToString(i)
  }

  /** No two output columns of a ratio metric share a name. */
  lemma OutFieldNamesDistinct(p: string, i: nat, j: nat)
    requires i != j
    ensures OutFieldName(p, i) != OutFieldName(p, j)
  {
    var a, b := OutFieldName(p, i), OutFieldName(p, j);
    if i == 0 || j == 0 {
      assert a[|p|] != b[|p|];
    } else {
      assert a[|p| + 2..] == NatToString(i) && b[|p| + 2..] == NatToString(j);
      if NatToString(i) == NatToString(j) {
        NatToStringInjective(i, j);
      }
    }
  }

  /** No output column of a ratio metric is called geoname: each ends in 'Y' or a digit. */
  lemma OutFieldNameNotGeoname(p: string, i: nat)
    ensures OutFieldName(p, i) != "geoname"
  {
    var a := OutFieldName(p, i);
    assert a[|a| - 1] != 'e';
  }

  /** `out_flds`: "geoname", then one output name per key field. */
  method JobsOutFields(outFieldPattern: string, keyFields: seq<string>) returns (names: seq<string>)
    ensures |names| == 1 + |keyFields|
    ensures names[0] == "geoname"
    ensures |keyFields| > 0 ==> names[1] == outFieldPattern + "CY"
    ensures forall i :: 1 <= i < |keyFields| ==> names[i + 1] == outFieldPattern + "FY" + NatToString(i)
    ensures NoDuplicates(names)
  {
    names := ["geoname"];
    for i := 0 to |keyFields|
      invariant |names| == 1 + i && names[0] == "geoname"
      invariant forall k :: 0 <= k < i ==> names[k + 1] == OutFieldName(outFieldPattern, k)
    {
      if i > 0 {
        names := names + [outFieldPattern + "FY" + NatToString(i)];
      } else {
        names := names + [outFieldPattern + "CY"];
      }
    }
    if |keyFields| > 0 {
      assert names[1] == OutFieldName(outFieldPattern, 0);
    }
    forall i | 1 <= i < |keyFields| ensures names[i + 1] == outFieldPattern + "FY" + NatToString(i) {
      assert names[i + 1] == OutFieldName(outFieldPattern, i);
    }
    forall i, j | 0 <= i < j < |names| ensures names[i] != names[j] {
      if i == 0 {
        OutFieldNameNotGeoname(outFieldPattern, j - 1);
      } else {
        OutFieldNamesDistinct(outFieldPattern, i - 1, j - 1);
      }
    }
  }

  /** The rollup's name for a key field: the output pattern and the field's last four characters. */
  function RenamedField(outFieldPattern: string, key: string): string
  {
    outFieldPattern + Suffix(key, 4)
  }

  /** `rename_dict`: every key field mapped to its rollup output name. */
  method RenameMap(keyFields: seq<string>, outFieldPattern: string) returns (rename: map<string, string>)
    ensures rename.Keys == set k | k in keyFields
    ensures forall k :: k in rename ==> rename[k] == RenamedField(outFieldPattern, k)
  {
    rename := map[];
    for i := 0 to |keyFields|
      invariant rename.Keys == set k | k in keyFields[..i]
      invariant forall k :: k in rename ==> rename[k] == RenamedField(outFieldPattern, k)
    {
      assert keyFields[..i + 1] == keyFields[..i] + [keyFields[i]];
      rename := rename[keyFields[i] := outFieldPattern + Suffix(keyFields[i], 4)];
    }
    assert keyFields[..|keyFields|] == keyFields;
  }

  /** `df.rename(columns=m)`: mapped names are replaced, others kept. */
  function RenameAll(cols: seq<string>, rename: map<string, string>): (r: seq<string>)
    ensures |r| == |cols|
    ensures forall i :: 0 <= i < |cols| ==> r[i] == if cols[i] in rename then rename[cols[i]] else cols[i]
  {
    seq(|cols|, i requires 0 <= i < |cols| => if cols[i] in rename then rename[cols[i]] else cols[i])
  }

  /** `groupby_dict`: the columns the rollup's group-by keeps, in column order:
      the key fields (aggregated) and geoname (its first value). */
  function AggregatedColumns(cols: seq<string>, keyPattern: string -> bool): (r: seq<string>)
  {
    if cols == [] then []
    else
      var c := cols[|cols| - 1];
      AggregatedColumns(cols[..|cols| - 1], keyPattern) + (if keyPattern(c) || c == "geoname" then [c] else [])
  }

  /** `drop_columns`: every other column, which the area rollup drops before grouping. */
  function DroppedColumns(cols: seq<string>, keyPattern: string -> bool): (r: seq<string>)
  {
    if cols == [] then []
    else
      var c := cols[|cols| - 1];
      DroppedColumns(cols[..|cols| - 1], keyPattern) + (if keyPattern(c) || c == "geoname" then [] else [c])
  }

  /** The kept columns are exactly the key fields and geoname, the dropped ones the rest. */
  lemma {:induction false} AggregationSplit(cols: seq<string>, keyPattern: string -> bool)
    ensures forall c :: c in AggregatedColumns(cols, keyPattern) <==> c in cols && (keyPattern(c) || c == "geoname")
    ensures forall c :: c in DroppedColumns(cols, keyPattern) <==> c in cols && !keyPattern(c) && c != "geoname"
    ensures |AggregatedColumns(cols, keyPattern)| + |DroppedColumns(cols, keyPattern)| == |cols|
  {
    if cols != [] {
      assert cols == cols[..|cols| - 1] + [cols[|cols| - 1]];
      AggregationSplit(cols[..|cols| - 1], keyPattern);
    }
  }

  /** Lines 234-239 and 266-274: walk the columns once, sending each key field and
      geoname to the group-by and, in the area rollup, every other column to the drop list. */
  method AggregationPlan(columns: seq<string>, keyPattern: string -> bool)
    returns (aggregated: seq<string>, dropped: seq<string>)
    ensures aggregated == AggregatedColumns(columns, keyPattern)
    ensures dropped == DroppedColumns(columns, keyPattern)
    ensures forall c :: c in aggregated <==> c in columns && (keyPattern(c) || c == "geoname")
    ensures forall c :: c in dropped <==> c in columns && !keyPattern(c) && c != "geoname"
  {
    aggregated, dropped := [], [];
    for i := 0 to |columns|
      invariant aggregated == AggregatedColumns(columns[..i], keyPattern)
      invariant dropped == DroppedColumns(columns[..i], keyPattern)
    {
      assert columns[..i + 1][..i] == columns[..i];
      if keyPattern(columns[i]) {
        aggregated := aggregated + [columns[i]];
      } else if columns[i] == "geoname" {
        aggregated := aggregated + [columns[i]];
      } else {
        dropped := dropped + [columns[i]];
      }
    }
    assert columns[..|columns|] == columns;
    AggregationSplit(columns, keyPattern);
  }

  /** Fields the key pattern does not match, "geoname" aside, are all dropped. */
  lemma {:induction false} PlanOfFront(front: seq<string>, keyPattern: string -> bool)
    requires forall i :: 0 <= i < |front| ==> !keyPattern(front[i]) && front[i] != "geoname"
    ensures AggregatedColumns(front, keyPattern) == []
    ensures DroppedColumns(front, keyPattern) == front
  {
    if front != [] {
      var n := |front| - 1;
      var c := front[n];
      PlanOfFront(front[..n], keyPattern);
      assert AggregatedColumns(front, keyPattern) == AggregatedColumns(front[..n], keyPattern);
      assert DroppedColumns(front, keyPattern) == front[..n] + [c];
      assert front[..n] + [c] == front;
    }
  }

  /** With the columns laid out as the rollup lays them out (fields the key
      pattern does not match, then the key fields), the key fields are
      aggregated in their order and every other field is dropped. */
  lemma {:induction false} PlanOfLayout(front: seq<string>, keys: seq<string>, keyPattern: string -> bool)
    requires forall i :: 0 <= i < |front| ==> !keyPattern(front[i]) && front[i] != "geoname"
    requires forall i :: 0 <= i < |keys| ==> keyPattern(keys[i])
    ensures AggregatedColumns(front + keys, keyPattern) == keys
    ensures DroppedColumns(front + keys, keyPattern) == front
  {
    if keys == [] {
      assert front + keys == front;
      PlanOfFront(front, keyPattern);
    } else {
      var n := |keys| - 1;
      var cols := front + keys;
      var c := keys[n];
      assert cols[..|cols| - 1] == front + keys[..n];
      assert cols[|cols| - 1] == c;
      PlanOfLayout(front, keys[..n], keyPattern);
      assert AggregatedColumns(cols, keyPattern) == keys[..n] + [c];
      assert keys[..n] + [c] == keys;
    }
  }

  /** Appending "geoname" to the layout aggregates it last and drops nothing more. */
  lemma PlanWithGeoname(cols: seq<string>, keyPattern: string -> bool)
    ensures AggregatedColumns(cols + ["geoname"], keyPattern) == AggregatedColumns(cols, keyPattern) + ["geoname"]
    ensures DroppedColumns(cols + ["geoname"], keyPattern) == DroppedColumns(cols, keyPattern)
  {
    assert (cols + ["geoname"])[..|cols|] == cols;
  }

  /** The aggregated columns of the layout, "geoname" aside, are the key fields. */
  lemma KeysThenGeoname(keys: seq<string>)
    requires "geoname" !in keys
    ensures ValueColumns(keys + ["geoname"]) == keys
  {
    assert (keys + ["geoname"])[..|keys|] == keys;
    ValueColumnsPlain(keys);
  }

  /** Columns none of which is "geoname" are all value columns. */
  lemma {:induction false} ValueColumnsPlain(cols: seq<string>)
    requires "geoname" !in cols
    ensures ValueColumns(cols) == cols
  {
    if cols != [] {
      var n := |cols| - 1;
      assert cols[n] in cols;
      ValueColumnsPlain(cols[..n]);
      assert cols[..n] + [cols[n]] == cols;
    }
  }

  /** The columns a per-field rollup keeps after its drop list: the renamed
      ones that are output names, geoname aside. */
  function Retained(cols: seq<string>, outNames: set<string>): (r: seq<string>)
    ensures forall c :: c in r <==> c in cols && c in outNames && c != "geoname"
  {
    if cols == [] then []
    else
      var c := cols[|cols| - 1];
      Retained(cols[..|cols| - 1], outNames) + (if c in outNames && c != "geoname" then [c] else [])
  }

  /** Every column but geoname, in order. */
  function ValueColumns(cols: seq<string>): (r: seq<string>)
    ensures forall c :: c in r <==> c in cols && c != "geoname"
  {
    if cols == [] then []
    else
      var c := cols[|cols| - 1];
      ValueColumns(cols[..|cols| - 1]) + (if c == "geoname" then [] else [c])
  }

  /** `df.drop(columns=d)`: every column not listed in d, in order. */
  function KeepColumns(cols: seq<string>, d: seq<string>): (r: seq<string>)
    ensures forall c :: c in r <==> c in cols && c !in d
  {
    if cols == [] then []
    else
      var c := cols[|cols| - 1];
      KeepColumns(cols[..|cols| - 1], d) + (if c in d then [] else [c])
  }

  /** Dropping what is listed, then setting geoname aside, leaves the retained columns. */
  lemma {:induction false} KeepThenValues(cols: seq<string>, outNames: set<string>, d: seq<string>)
    requires forall c :: c in cols ==> (c in d <==> c !in outNames && c != "geoname")
    ensures ValueColumns(KeepColumns(cols, d)) == Retained(cols, outNames)
  {
    if cols != [] {
      var front, c := cols[..|cols| - 1], cols[|cols| - 1];
      assert cols == front + [c];
      KeepThenValues(front, outNames, d);
      var k := KeepColumns(front, d);
      if c in d {
        assert KeepColumns(cols, d) == k;
        assert Retained(cols, outNames) == Retained(front, outNames);
      } else {
        assert KeepColumns(cols, d) == k + [c];
        assert (k + [c])[..|k|] == k;
        assert ValueColumns(k + [c]) == ValueColumns(k) + (if c == "geoname" then [] else [c]);
      }
    }
  }

  /** The per-field rollup's output columns (lines 242-251): rename the grouped
      columns, drop any that is neither an output name nor geoname, then move
      geoname to the front. */
  method FieldOutputColumns(aggregated: seq<string>, rename: map<string, string>) returns (out: seq<string>)
    requires "geoname" in aggregated && "geoname" !in rename
    requires forall c :: c in rename ==> rename[c] != "geoname"
    ensures out == ["geoname"] + Retained(RenameAll(aggregated, rename), rename.Values)
  {
    var renamed := RenameAll(aggregated, rename);
    var dropList: seq<string> := [];
    for i := 0 to |renamed|
      invariant forall c :: c in dropList <==> c in renamed[..i] && c !in rename.Values && c != "geoname"
    {
      assert renamed[..i + 1] == renamed[..i] + [renamed[i]];
      if renamed[i] !in rename.Values && renamed[i] != "geoname" {
        dropList := dropList + [renamed[i]];
      }
    }
    assert renamed[..|renamed|] == renamed;
    var kept := KeepColumns(renamed, dropList);
    out := ["geoname"] + ValueColumns(kept);
    KeepThenValues(renamed, rename.Values, dropList);
  }

  /** `Retained` extends by one column at a time. */
  lemma RetainedStep(cols: seq<string>, outNames: set<string>, x: string)
    ensures Retained(cols + [x], outNames) == Retained(cols, outNames) + (if x in outNames && x != "geoname" then [x] else [])
  {
    assert (cols + [x])[..|cols|] == cols;
  }

  /** `ValueColumns` extends by one column at a time, skipping geoname. */
  lemma ValueStep(cols: seq<string>, x: string)
    ensures ValueColumns(cols + [x]) == ValueColumns(cols) + (if x == "geoname" then [] else [x])
  {
    assert (cols + [x])[..|cols|] == cols;
  }

  /** `RenameAll` extends by one renamed column at a time. */
  lemma RenameStep(cols: seq<string>, rename: map<string, string>, x: string)
    ensures RenameAll(cols + [x], rename) == RenameAll(cols, rename) + [if x in rename then rename[x] else x]
  {
  }

  /** In a rollup, where the grouped columns are geoname and renamed key
      fields, the drop list is empty: every key column survives, renamed, in order. */
  lemma {:induction false} RetainedRenamedKeys(aggregated: seq<string>, rename: map<string, string>)
    requires "geoname" !in rename
    requires forall c :: c in rename ==> rename[c] != "geoname"
    requires forall i :: 0 <= i < |aggregated| && aggregated[i] != "geoname" ==> aggregated[i] in rename
    ensures Retained(RenameAll(aggregated, rename), rename.Values) == RenameAll(ValueColumns(aggregated), rename)
  {
    if aggregated != [] {
      var n := |aggregated|;
      var c := aggregated[n - 1];
      var front := aggregated[..n - 1];
      assert aggregated == front + [c];
      RetainedRenamedKeys(front, rename);
      var r := if c in rename then rename[c] else c;
      RenameStep(front, rename, c);
      RetainedStep(RenameAll(front, rename), rename.Values, r);
      ValueStep(front, c);
      if c != "geoname" {
        assert rename[c] in rename.Values;
        RenameStep(ValueColumns(front), rename, c);
      }
    }
  }
}
