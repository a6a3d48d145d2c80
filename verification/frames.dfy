/** The source table the aggregators read, and the column and row
    operations they apply to it before any arithmetic. */
module Frames {

  datatype Option<+T> = None | Some(value: T)

  /** One source record: its text cells (geography names, filter columns)
      and its numeric cells (yearly key values and household weights). */
  datatype Row = Row(text: map<string, string>, num: map<string, real>)

  /** A fetched layer: its column names, in layer order, and its records. */
  datatype Frame = Frame(columns: seq<string>, rows: seq<Row>)

  /** A named geography area: the records passing `filter` form one synthetic
      geography; `queryFields` are the columns the filter reads. */
  datatype Area = Area(name: string, queryFields: seq<string>, filter: Row -> bool)

  predicate HasText(rows: seq<Row>, c: string)
  {
    forall i :: 0 <= i < |rows| ==> c in rows[i].text
  }

  predicate HasNum(rows: seq<Row>, c: string)
  {
    forall i :: 0 <= i < |rows| ==> c in rows[i].num
  }

  predicate HasNums(rows: seq<Row>, cs: seq<string>)
  {
    forall i, j :: 0 <= i < |rows| && 0 <= j < |cs| ==> cs[j] in rows[i].num
  }

  /** Numeric column w summed over the records whose text cell g reads `raw`. */
  function ColumnTotal(rows: seq<Row>, g: string, raw: string, w: string): real
    requires HasText(rows, g) && HasNum(rows, w)
  {
    if rows == [] then 0.0
    else (if rows[0].text[g] == raw then rows[0].num[w] else 0.0) + ColumnTotal(rows[1..], g, raw, w)
  }

  /** How many records have text cell g reading `raw`. */
  function RecordCount(rows: seq<Row>, g: string, raw: string): nat
    requires HasText(rows, g)
  {
    if rows == [] then 0
    else (if rows[0].text[g] == raw then 1 else 0) + RecordCount(rows[1..], g, raw)
  }

  /** `[c for c in cols if pattern matches c]`: the matching columns, in column order. */
  function Select(cols: seq<string>, matches: string -> bool): (r: seq<string>)
    ensures |r| <= |cols|
    ensures forall c :: c in r <==> c in cols && matches(c)
  {
    if cols == [] then []
    else (if matches(cols[0]) then [cols[0]] else []) + Select(cols[1..], matches)
  }

  /** The positions from `from` on of the columns `matches` accepts, each once, in increasing order. */
  function MatchPositions(cols: seq<string>, matches: string -> bool, from: nat): (idx: seq<nat>)
    requires from <= |cols|
    ensures forall k :: 0 <= k < |idx| ==> from <= idx[k] < |cols| && matches(cols[idx[k]])
    ensures forall k, l :: 0 <= k < l < |idx| ==> idx[k] < idx[l]
    ensures forall i :: from <= i < |cols| && matches(cols[i]) ==> i in idx
    decreases |cols| - from
  {
    if from == |cols| then []
    else (if matches(cols[from]) then [from] else []) + MatchPositions(cols, matches, from + 1)
  }

  /** The selection keeps layer column order: its k-th column is the column
      at the k-th matching position, so the selected columns are exactly the
      matching ones, in the order the layer lists them. */
  lemma {:induction false} SelectInOrder(cols: seq<string>, matches: string -> bool, from: nat)
    requires from <= |cols|
    ensures var r, idx := Select(cols[from..], matches), MatchPositions(cols, matches, from);
      |r| == |idx| && forall k :: 0 <= k < |idx| ==> r[k] == cols[idx[k]]
    decreases |cols| - from
  {
    if from < |cols| {
      SelectInOrder(cols, matches, from + 1);
      assert cols[from..][1..] == cols[from + 1..];
    }
  }

  /** The first of xs missing from present: the column a `KeyError` names. */
  function FirstAbsent(xs: seq<string>, present: seq<string>): (r: Option<string>)
    ensures r.None? <==> forall x :: x in xs ==> x in present
    ensures r.Some? ==> exists i :: 0 <= i < |xs| && xs[i] == r.value && xs[i] !in present &&
                                    forall j :: 0 <= j < i ==> xs[j] in present
  {
    if xs == [] then None
    else if xs[0] !in present then Some(xs[0])
    else
      var r := FirstAbsent(xs[1..], present);
      if r.Some? then
        var i :| 0 <= i < |xs[1..]| && xs[1..][i] == r.value && xs[1..][i] !in present &&
                  forall j :: 0 <= j < i ==> xs[1..][j] in present;
        assert xs[i + 1] == r.value;
        r
      else r
  }

  /** `df[cols]` for one record: only the listed columns survive. */
  function ProjectRow(r: Row, keep: seq<string>): (p: Row)
    ensures forall c :: c in p.text <==> c in r.text && c in keep
    ensures forall c :: c in p.num <==> c in r.num && c in keep
    ensures forall c :: c in p.text ==> p.text[c] == r.text[c]
    ensures forall c :: c in p.num ==> p.num[c] == r.num[c]
  {
    Row(map c | c in r.text && c in keep :: r.text[c], map c | c in r.num && c in keep :: r.num[c])
  }

  /** `df[cols]`: every record restricted to the listed columns. */
  function Project(rows: seq<Row>, keep: seq<string>): (p: seq<Row>)
    ensures |p| == |rows|
    ensures forall i :: 0 <= i < |rows| ==> p[i] == ProjectRow(rows[i], keep)
  {
    seq(|rows|, i requires 0 <= i < |rows| => ProjectRow(rows[i], keep))
  }

  /** `df.query(q)`: the records the filter keeps, in their original order. */
  function Where(rows: seq<Row>, keep: Row -> bool): (r: seq<Row>)
    ensures |r| <= |rows|
    ensures forall x :: x in r <==> x in rows && keep(x)
  {
    if rows == [] then []
    else (if keep(rows[0]) then [rows[0]] else []) + Where(rows[1..], keep)
  }

  /** A record the filter keeps is kept as often as it occurs; any other record not at all. */
  lemma {:induction false} WhereCounts(rows: seq<Row>, keep: Row -> bool)
    ensures forall x :: multiset(Where(rows, keep))[x] == if keep(x) then multiset(rows)[x] else 0
  {
    if rows != [] {
      WhereCounts(rows[1..], keep);
      assert rows == [rows[0]] + rows[1..];
    }
  }

  /** Filtering keeps whatever cells every record had. */
  lemma WhereKeepsCells(rows: seq<Row>, keep: Row -> bool, c: string, cs: seq<string>)
    ensures HasText(rows, c) ==> HasText(Where(rows, keep), c)
    ensures HasNums(rows, cs) ==> HasNums(Where(rows, keep), cs)
  {
    var r := Where(rows, keep);
    forall i | 0 <= i < |r| ensures exists j :: 0 <= j < |rows| && rows[j] == r[i] {
      assert r[i] in r;
    }
  }

  /** `df[c] = df[src]` on text: every record gets a text cell c copied from src. */
  function CopyText(rows: seq<Row>, c: string, src: string): (r: seq<Row>)
    requires HasText(rows, src)
    ensures |r| == |rows|
    ensures forall i :: 0 <= i < |rows| ==> r[i].text == rows[i].text[c := rows[i].text[src]]
    ensures forall i :: 0 <= i < |rows| ==> r[i].num == rows[i].num
  {
    seq(|rows|, i requires 0 <= i < |rows| => Row(rows[i].text[c := rows[i].text[src]], rows[i].num))
  }

  /** `df[c] = value`: every record gets the same text cell c. */
  function SetText(rows: seq<Row>, c: string, value: string): (r: seq<Row>)
    ensures |r| == |rows|
    ensures forall i :: 0 <= i < |rows| ==> r[i].text == rows[i].text[c := value]
    ensures forall i :: 0 <= i < |rows| ==> r[i].num == rows[i].num
  {
    seq(|rows|, i requires 0 <= i < |rows| => Row(rows[i].text[c := value], rows[i].num))
  }

  /** Projection keeps the cells of every listed column. */
  lemma ProjectKeepsCells(rows: seq<Row>, keep: seq<string>, c: string, cs: seq<string>)
    ensures HasText(rows, c) && c in keep ==> HasText(Project(rows, keep), c)
    ensures HasNums(rows, cs) && (forall x :: x in cs ==> x in keep) ==> HasNums(Project(rows, keep), cs)
  {
  }

  /** Projections onto lists with the same members are the same. */
  lemma ProjectSameMembers(rows: seq<Row>, a: seq<string>, b: seq<string>)
    requires forall c :: c in a <==> c in b
    ensures Project(rows, a) == Project(rows, b)
  {
    forall i | 0 <= i < |rows| ensures ProjectRow(rows[i], a) == ProjectRow(rows[i], b) {
      assert ProjectRow(rows[i], a).text == ProjectRow(rows[i], b).text;
      assert ProjectRow(rows[i], a).num == ProjectRow(rows[i], b).num;
    }
  }

  /** Record lists that agree, record by record, on cell g and cell w have the same totals of w by g. */
  lemma {:induction false} TotalsAgree(a: seq<Row>, b: seq<Row>, g: string, raw: string, w: string)
    requires HasText(a, g) && HasNum(a, w) && HasText(b, g) && HasNum(b, w) && |a| == |b|
    requires forall i :: 0 <= i < |a| ==> a[i].text[g] == b[i].text[g] && a[i].num[w] == b[i].num[w]
    ensures ColumnTotal(a, g, raw, w) == ColumnTotal(b, g, raw, w)
  {
    if a != [] {
      TotalsAgree(a[1..], b[1..], g, raw, w);
    }
  }

  /** Record lists that agree, record by record, on cell g have the same counts by g. */
  lemma {:induction false} CountsAgree(a: seq<Row>, b: seq<Row>, g: string, raw: string)
    requires HasText(a, g) && HasText(b, g) && |a| == |b|
    requires forall i :: 0 <= i < |a| ==> a[i].text[g] == b[i].text[g]
    ensures RecordCount(a, g, raw) == RecordCount(b, g, raw)
  {
    if a != [] {
      CountsAgree(a[1..], b[1..], g, raw);
    }
  }

  /** Where every record's cell g reads v, every record counts for v and none for any other value. */
  lemma {:induction false} CountUniform(rows: seq<Row>, g: string, v: string, raw: string)
    requires HasText(rows, g) && forall i :: 0 <= i < |rows| ==> rows[i].text[g] == v
    ensures RecordCount(rows, g, raw) == if raw == v then |rows| else 0
  {
    if rows != [] {
      CountUniform(rows[1..], g, v, raw);
    }
  }

  /** The first absent element is the one at the first index whose element is absent. */
  lemma FirstAbsentAt(xs: seq<string>, present: seq<string>, j: nat)
    requires j < |xs| && xs[j] !in present
    requires forall k :: 0 <= k < j ==> xs[k] in present
    ensures FirstAbsent(xs, present) == Some(xs[j])
  {
    var r := FirstAbsent(xs, present);
    var i :| 0 <= i < |xs| && xs[i] == r.value && xs[i] !in present && forall k :: 0 <= k < i ==> xs[k] in present;
    assert !(i < j) && !(j < i);
  }
}
