/** The accumulating merge: each metric's table is outer-joined, on
    `geoname`, into one wide table that starts out as an empty frame. */
module Merge {
  import opened Frames
  import opened Groups
  import JobsBy
  import Rollup

  /** One row of the wide table: its geoname and one cell per column, `None` where pandas holds NaN. */
  datatype WideRow = WideRow(geoname: string, cells: seq<Option<real>>)

  /** The wide table: its value column names (geoname aside), its rows, and
      whether `geoname` is one of its columns rather than its index. */
  datatype WideTable = WideTable(columns: seq<string>, rows: seq<WideRow>, geonameColumn: bool)

  /** What a metric function returns: its table, and whether `geoname` is a
      column of it (the rollups) or its index (the ratio metrics, whose
      tables come out of `groupby("geoname")`). */
  datatype Output = Output(table: MetricTable, geonameColumn: bool)

  /** `DataFrame.empty`: no rows, or no columns at all. */
  predicate IsEmpty(t: WideTable)
  {
    |t.rows| == 0 || (!t.geonameColumn && |t.columns| == 0)
  }

  /** `pd.DataFrame()`, the accumulator before the first metric. */
  function EmptyFrame(): (t: WideTable)
    ensures t.columns == [] && t.rows == [] && IsEmpty(t)
  {
    WideTable([], [], false)
  }

  /** Every row has one cell per column. */
  predicate Rectangular(t: WideTable)
  {
    forall i :: 0 <= i < |t.rows| ==> |t.rows[i].cells| == |t.columns|
  }

  /** The geography names a list of rows covers. */
  function Names(rows: seq<WideRow>): (s: set<string>)
    ensures forall r :: r in rows ==> r.geoname in s
    ensures forall g :: g in s ==> exists r :: r in rows && r.geoname == g
  {
    set r | r in rows :: r.geoname
  }

  /** The geography names a metric table covers. */
  function MetricNames(m: MetricTable): set<string>
  {
    set r | r in m.rows :: r.geoname
  }

  /** No geography name occurs twice. */
  predicate Unique(rows: seq<WideRow>)
  {
    forall i, j :: 0 <= i < j < |rows| ==> rows[i].geoname != rows[j].geoname
  }

  /** A metric's output as a wide table: every value present, any other index dropped. */
  function Widen(o: Output): (t: WideTable)
    ensures t.columns == o.table.columns && |t.rows| == |o.table.rows| && t.geonameColumn == o.geonameColumn
    ensures var m := o.table;
      forall i :: 0 <= i < |m.rows| ==>
      t.rows[i].geoname == m.rows[i].geoname && |t.rows[i].cells| == |m.rows[i].values| &&
      (forall j :: 0 <= j < |m.rows[i].values| ==> t.rows[i].cells[j] == Some(m.rows[i].values[j]))
  {
    var m := o.table;
    WideTable(m.columns, seq(|m.rows|, i requires 0 <= i < |m.rows| =>
      WideRow(m.rows[i].geoname, seq(|m.rows[i].values|, j requires 0 <= j < |m.rows[i].values| => Some(m.rows[i].values[j])))),
      o.geonameColumn)
  }

  /** A run of NaN cells. */
  function Nulls(n: nat): (r: seq<Option<real>>)
    ensures |r| == n && forall i :: 0 <= i < n ==> r[i] == None
  {
    seq(n, _ => None)
  }

  /** The column names of the other table get suffix `sfx` where they clash. */
  function Suffixed(cs: seq<string>, other: seq<string>, sfx: string): (r: seq<string>)
    ensures |r| == |cs|
    ensures forall i :: 0 <= i < |cs| ==> r[i] == if cs[i] in other then cs[i] + sfx else cs[i]
  {
    seq(|cs|, i requires 0 <= i < |cs| => if cs[i] in other then cs[i] + sfx else cs[i])
  }

  /** The joined table's columns: the left table's, then the right table's, a clash marked `_x` and `_y`. */
  function JoinColumns(a: seq<string>, b: seq<string>): (r: seq<string>)
    ensures |r| == |a| + |b|
  {
    Suffixed(a, b, "_x") + Suffixed(b, a, "_y")
  }

  /** The rows of `rows` named g, in order. */
  function Matches(rows: seq<WideRow>, g: string): (r: seq<WideRow>)
    ensures |r| <= |rows|
    ensures forall x :: x in r <==> x in rows && x.geoname == g
  {
    if rows == [] then []
    else (if rows[0].geoname == g then [rows[0]] else []) + Matches(rows[1..], g)
  }

  /** One left row joined with each right row it matches. */
  function Pair(l: WideRow, ms: seq<WideRow>): (r: seq<WideRow>)
    ensures |r| == |ms|
    ensures forall i :: 0 <= i < |ms| ==> r[i] == WideRow(l.geoname, l.cells + ms[i].cells)
  {
    seq(|ms|, i requires 0 <= i < |ms| => WideRow(l.geoname, l.cells + ms[i].cells))
  }

  /** The rows the left table contributes: each left row with each match, or padded with `wb` nulls when it has none. */
  function JoinLeft(ls: seq<WideRow>, rs: seq<WideRow>, wb: nat): seq<WideRow>
  {
    if ls == [] then []
    else
      var ms := Matches(rs, ls[0].geoname);
      (if ms == [] then [WideRow(ls[0].geoname, ls[0].cells + Nulls(wb))] else Pair(ls[0], ms)) + JoinLeft(ls[1..], rs, wb)
  }

  /** The right rows whose name the left table lacks, each padded in front with `wa` nulls. */
  function RightOnly(rs: seq<WideRow>, names: set<string>, wa: nat): seq<WideRow>
  {
    if rs == [] then []
    else (if rs[0].geoname in names then [] else [WideRow(rs[0].geoname, Nulls(wa) + rs[0].cells)]) + RightOnly(rs[1..], names, wa)
  }

  /** `a.merge(b, how="outer", on="geoname")`: `geoname` stays the index only
      when it is the index on both sides, and becomes a column otherwise. */
  function OuterJoin(a: WideTable, b: WideTable): (t: WideTable)
  {
    WideTable(JoinColumns(a.columns, b.columns),
              JoinLeft(a.rows, b.rows, |b.columns|) + RightOnly(b.rows, Names(a.rows), |a.columns|),
              a.geonameColumn || b.geonameColumn)
  }

  // ---------------------------------------------------------------------
  // The outer join, against the definition of a full outer join

  /** Row x is what left row l contributes to a full outer join on geoname:
      l beside a right row of its name, or l padded with nulls when there is none. */
  predicate FromLeft(x: WideRow, l: WideRow, rs: seq<WideRow>, wb: nat)
  {
    (exists r :: r in rs && r.geoname == l.geoname && x == WideRow(l.geoname, l.cells + r.cells)) ||
    (l.geoname !in Names(rs) && x == WideRow(l.geoname, l.cells + Nulls(wb)))
  }

  /** Row x is what right row r contributes on its own: r padded in front
      with nulls, when no left row has its name. */
  predicate FromRight(x: WideRow, r: WideRow, ls: seq<WideRow>, wa: nat)
  {
    r.geoname !in Names(ls) && x == WideRow(r.geoname, Nulls(wa) + r.cells)
  }

  /** Row x is one a full outer join of ls and rs on geoname produces. */
  predicate Joined(x: WideRow, ls: seq<WideRow>, rs: seq<WideRow>, wa: nat, wb: nat)
  {
    (exists l :: l in ls && FromLeft(x, l, rs, wb)) || (exists r :: r in rs && FromRight(x, r, ls, wa))
  }

  /** The rows one left row contributes. */
  lemma LeftRowRows(l: WideRow, rs: seq<WideRow>, wb: nat)
    ensures var ms := Matches(rs, l.geoname);
      forall x :: x in (if ms == [] then [WideRow(l.geoname, l.cells + Nulls(wb))] else Pair(l, ms)) <==> FromLeft(x, l, rs, wb)
  {
    var ms := Matches(rs, l.geoname);
    var head := if ms == [] then [WideRow(l.geoname, l.cells + Nulls(wb))] else Pair(l, ms);
    if ms != [] {
      assert ms[0] in ms;
      assert l.geoname in Names(rs);
      forall x | x in head ensures FromLeft(x, l, rs, wb) {
        var i :| 0 <= i < |ms| && head[i] == x;
        assert ms[i] in ms;
      }
      forall x | FromLeft(x, l, rs, wb) ensures x in head {
        var r :| r in rs && r.geoname == l.geoname && x == WideRow(l.geoname, l.cells + r.cells);
        assert r in ms;
        var i :| 0 <= i < |ms| && ms[i] == r;
        assert head[i] == x;
      }
    }
  }

  lemma {:induction false} JoinLeftRows(ls: seq<WideRow>, rs: seq<WideRow>, wb: nat)
    ensures forall x :: x in JoinLeft(ls, rs, wb) <==> exists l :: l in ls && FromLeft(x, l, rs, wb)
  {
    if ls != [] {
      var l0 := ls[0];
      var ms := Matches(rs, l0.geoname);
      var head := if ms == [] then [WideRow(l0.geoname, l0.cells + Nulls(wb))] else Pair(l0, ms);
      var tail := JoinLeft(ls[1..], rs, wb);
      assert JoinLeft(ls, rs, wb) == head + tail;
      JoinLeftRows(ls[1..], rs, wb);
      LeftRowRows(l0, rs, wb);
      forall x ensures x in head + tail <==> exists l :: l in ls && FromLeft(x, l, rs, wb) {
        if x in head {
          assert l0 in ls;
        } else if x in tail {
          var l :| l in ls[1..] && FromLeft(x, l, rs, wb);
          assert l in ls;
        }
        if exists l :: l in ls && FromLeft(x, l, rs, wb) {
          var l :| l in ls && FromLeft(x, l, rs, wb);
          if l != l0 {
            assert l in ls[1..];
          }
        }
      }
    }
  }

  lemma {:induction false} RightOnlyRows(rs: seq<WideRow>, ls: seq<WideRow>, wa: nat)
    ensures forall x :: x in RightOnly(rs, Names(ls), wa) <==> exists r :: r in rs && FromRight(x, r, ls, wa)
  {
    if rs != [] {
      var r0 := rs[0];
      var head := if r0.geoname in Names(ls) then [] else [WideRow(r0.geoname, Nulls(wa) + r0.cells)];
      var tail := RightOnly(rs[1..], Names(ls), wa);
      assert RightOnly(rs, Names(ls), wa) == head + tail;
      RightOnlyRows(rs[1..], ls, wa);
      forall x ensures x in head + tail <==> exists r :: r in rs && FromRight(x, r, ls, wa) {
        if x in head {
          assert FromRight(x, r0, ls, wa);
        } else if x in tail {
          var r :| r in rs[1..] && FromRight(x, r, ls, wa);
          assert r in rs;
        }
        if exists r :: r in rs && FromRight(x, r, ls, wa) {
          var r :| r in rs && FromRight(x, r, ls, wa);
          if r != r0 {
            assert r in rs[1..];
          }
        }
      }
    }
  }

  /** The outer join yields exactly the rows of a full outer join on geoname: every matched pair, every unmatched row of either side, nothing else. */
  lemma OuterJoinRows(a: WideTable, b: WideTable)
    ensures forall x :: x in OuterJoin(a, b).rows <==> Joined(x, a.rows, b.rows, |a.columns|, |b.columns|)
  {
    JoinLeftRows(a.rows, b.rows, |b.columns|);
    RightOnlyRows(b.rows, a.rows, |a.columns|);
  }

  /** Every left row beside every right row of its name is a row of the join. */
  lemma PairInJoin(a: WideTable, b: WideTable, l: WideRow, r: WideRow)
    requires l in a.rows && r in b.rows && l.geoname == r.geoname
    ensures WideRow(l.geoname, l.cells + r.cells) in OuterJoin(a, b).rows
  {
    JoinLeftRows(a.rows, b.rows, |b.columns|);
    assert FromLeft(WideRow(l.geoname, l.cells + r.cells), l, b.rows, |b.columns|);
  }

  /** A left row whose name the right table lacks is a row of the join, padded with nulls. */
  lemma LeftAloneInJoin(a: WideTable, b: WideTable, l: WideRow)
    requires l in a.rows && l.geoname !in Names(b.rows)
    ensures WideRow(l.geoname, l.cells + Nulls(|b.columns|)) in OuterJoin(a, b).rows
  {
    JoinLeftRows(a.rows, b.rows, |b.columns|);
    assert FromLeft(WideRow(l.geoname, l.cells + Nulls(|b.columns|)), l, b.rows, |b.columns|);
  }

  /** A right row whose name the left table lacks is a row of the join, padded with nulls. */
  lemma RightAloneInJoin(a: WideTable, b: WideTable, r: WideRow)
    requires r in b.rows && r.geoname !in Names(a.rows)
    ensures WideRow(r.geoname, Nulls(|a.columns|) + r.cells) in OuterJoin(a, b).rows
  {
    RightOnlyRows(b.rows, a.rows, |a.columns|);
    assert FromRight(WideRow(r.geoname, Nulls(|a.columns|) + r.cells), r, a.rows, |a.columns|);
  }

  /** Every name of either side has a row in the join. */
  lemma OuterJoinKeepsNames(a: WideTable, b: WideTable)
    ensures Names(a.rows) + Names(b.rows) <= Names(OuterJoin(a, b).rows)
  {
    var j := OuterJoin(a, b).rows;
    forall g | g in Names(a.rows) + Names(b.rows) ensures g in Names(j) {
      if g in Names(a.rows) {
        var l :| l in a.rows && l.geoname == g;
        if g in Names(b.rows) {
          var r :| r in b.rows && r.geoname == g;
          PairInJoin(a, b, l, r);
        } else {
          LeftAloneInJoin(a, b, l);
        }
      } else {
        var r :| r in b.rows && r.geoname == g;
        RightAloneInJoin(a, b, r);
      }
    }
  }

  /** No geography is dropped and none invented: the joined names are the union of both sides' names. */
  lemma OuterJoinNames(a: WideTable, b: WideTable)
    ensures Names(OuterJoin(a, b).rows) == Names(a.rows) + Names(b.rows)
  {
    var left := JoinLeft(a.rows, b.rows, |b.columns|);
    var right := RightOnly(b.rows, Names(a.rows), |a.columns|);
    OuterJoinKeepsNames(a, b);
    JoinLeftNamed(a.rows, b.rows, |b.columns|);
    RightOnlyNamed(b.rows, Names(a.rows), |a.columns|);
    forall x: WideRow | x in left + right ensures x.geoname in Names(a.rows) + Names(b.rows) {
      var k :| 0 <= k < |left + right| && (left + right)[k] == x;
      if k < |left| {
        assert !Fresh(x.geoname, left);
      } else {
        assert !Fresh(x.geoname, right);
      }
    }
  }

  /** Joining two rectangular tables gives a rectangular table as wide as both together. */
  lemma OuterJoinShape(a: WideTable, b: WideTable)
    requires Rectangular(a) && Rectangular(b)
    ensures |OuterJoin(a, b).columns| == |a.columns| + |b.columns|
    ensures Rectangular(OuterJoin(a, b))
  {
    forall r: WideRow | r in b.rows ensures |r.cells| == |b.columns| {
    }
    JoinLeftWidth(a.rows, b.rows, |a.columns|, |b.columns|);
    RightOnlyWidth(b.rows, Names(a.rows), |a.columns|, |b.columns|);
  }

  /** A geography the right table lacks keeps its left cells and gets nulls, not zeros, in the right table's columns. */
  lemma LeftOnlyPadding(a: WideTable, b: WideTable)
    ensures forall x :: x in OuterJoin(a, b).rows && x.geoname !in Names(b.rows) ==>
      exists l :: l in a.rows && x == WideRow(l.geoname, l.cells + Nulls(|b.columns|))
  {
    var wa, wb := |a.columns|, |b.columns|;
    var left := JoinLeft(a.rows, b.rows, wb);
    var right := RightOnly(b.rows, Names(a.rows), wa);
    JoinLeftRows(a.rows, b.rows, wb);
    RightOnlyNamed(b.rows, Names(a.rows), wa);
    forall x: WideRow | x in left + right && x.geoname !in Names(b.rows)
      ensures exists l :: l in a.rows && x == WideRow(l.geoname, l.cells + Nulls(wb))
    {
      var k :| 0 <= k < |left + right| && (left + right)[k] == x;
      if k < |left| {
        assert x in left;
        var l :| l in a.rows && FromLeft(x, l, b.rows, wb);
      } else {
        assert Fresh(x.geoname, b.rows);
      }
    }
  }

  /** A geography the left table lacks gets nulls, not zeros, in the left table's columns, followed by its right cells. */
  lemma RightOnlyPadding(a: WideTable, b: WideTable)
    ensures forall x :: x in OuterJoin(a, b).rows && x.geoname !in Names(a.rows) ==>
      exists r :: r in b.rows && x == WideRow(r.geoname, Nulls(|a.columns|) + r.cells)
  {
    var wa, wb := |a.columns|, |b.columns|;
    var left := JoinLeft(a.rows, b.rows, wb);
    var right := RightOnly(b.rows, Names(a.rows), wa);
    JoinLeftNamed(a.rows, b.rows, wb);
    RightOnlyRows(b.rows, a.rows, wa);
    forall x: WideRow | x in left + right && x.geoname !in Names(a.rows)
      ensures exists r :: r in b.rows && x == WideRow(r.geoname, Nulls(wa) + r.cells)
    {
      var k :| 0 <= k < |left + right| && (left + right)[k] == x;
      if k < |left| {
        assert Fresh(x.geoname, a.rows);
      } else {
        assert x in right;
        var r :| r in b.rows && FromRight(x, r, a.rows, wa);
      }
    }
  }

  /** No row is named g. */
  predicate Fresh(g: string, rows: seq<WideRow>)
  {
    forall k :: 0 <= k < |rows| ==> rows[k].geoname != g
  }

  /** The left part of the join names only left rows' geographies. */
  lemma {:induction false} JoinLeftNamed(ls: seq<WideRow>, rs: seq<WideRow>, wb: nat)
    ensures forall g :: Fresh(g, ls) ==> Fresh(g, JoinLeft(ls, rs, wb))
  {
    if ls != [] {
      JoinLeftNamed(ls[1..], rs, wb);
      forall g | Fresh(g, ls) ensures Fresh(g, ls[1..]) {
      }
    }
  }

  /** The right part of the join names only right rows' geographies, and none the left table has. */
  lemma {:induction false} RightOnlyNamed(rs: seq<WideRow>, names: set<string>, wa: nat)
    ensures forall g :: Fresh(g, rs) ==> Fresh(g, RightOnly(rs, names, wa))
    ensures forall k :: 0 <= k < |RightOnly(rs, names, wa)| ==> RightOnly(rs, names, wa)[k].geoname !in names
  {
    if rs != [] {
      RightOnlyNamed(rs[1..], names, wa);
      forall g | Fresh(g, rs) ensures Fresh(g, rs[1..]) {
      }
    }
  }

  lemma {:induction false} JoinLeftWidth(ls: seq<WideRow>, rs: seq<WideRow>, wa: nat, wb: nat)
    requires forall k :: 0 <= k < |ls| ==> |ls[k].cells| == wa
    requires forall r :: r in rs ==> |r.cells| == wb
    ensures forall k :: 0 <= k < |JoinLeft(ls, rs, wb)| ==> |JoinLeft(ls, rs, wb)[k].cells| == wa + wb
  {
    if ls != [] {
      JoinLeftWidth(ls[1..], rs, wa, wb);
      var ms := Matches(rs, ls[0].geoname);
      var head := if ms == [] then [WideRow(ls[0].geoname, ls[0].cells + Nulls(wb))] else Pair(ls[0], ms);
      assert JoinLeft(ls, rs, wb) == head + JoinLeft(ls[1..], rs, wb);
      forall k | 0 <= k < |head| ensures |head[k].cells| == wa + wb {
        if ms != [] {
          assert ms[k] in ms;
        }
      }
    }
  }

  lemma {:induction false} RightOnlyWidth(rs: seq<WideRow>, names: set<string>, wa: nat, wb: nat)
    requires forall k :: 0 <= k < |rs| ==> |rs[k].cells| == wb
    ensures forall k :: 0 <= k < |RightOnly(rs, names, wa)| ==> |RightOnly(rs, names, wa)[k].cells| == wa + wb
  {
    if rs != [] {
      RightOnlyWidth(rs[1..], names, wa, wb);
    }
  }

  lemma {:induction false} NoMatches(rs: seq<WideRow>, g: string)
    requires forall k :: 0 <= k < |rs| ==> rs[k].geoname != g
    ensures Matches(rs, g) == []
  {
    if rs != [] {
      NoMatches(rs[1..], g);
    }
  }

  lemma {:induction false} MatchesOfUnique(rs: seq<WideRow>, g: string)
    requires Unique(rs)
    ensures |Matches(rs, g)| <= 1
  {
    if rs != [] {
      MatchesOfUnique(rs[1..], g);
      if rs[0].geoname == g {
        NoMatches(rs[1..], g);
      }
    }
  }

  lemma {:induction false} JoinLeftUnique(ls: seq<WideRow>, rs: seq<WideRow>, wb: nat)
    requires Unique(ls) && Unique(rs)
    ensures Unique(JoinLeft(ls, rs, wb))
  {
    if ls != [] {
      JoinLeftUnique(ls[1..], rs, wb);
      var ms := Matches(rs, ls[0].geoname);
      MatchesOfUnique(rs, ls[0].geoname);
      var head := if ms == [] then [WideRow(ls[0].geoname, ls[0].cells + Nulls(wb))] else Pair(ls[0], ms);
      var tail := JoinLeft(ls[1..], rs, wb);
      assert JoinLeft(ls, rs, wb) == head + tail;
      assert |head| == 1 && head[0].geoname == ls[0].geoname;
      assert Fresh(ls[0].geoname, ls[1..]);
      JoinLeftNamed(ls[1..], rs, wb);
    }
  }

  lemma {:induction false} RightOnlyUnique(rs: seq<WideRow>, names: set<string>, wa: nat)
    requires Unique(rs)
    ensures Unique(RightOnly(rs, names, wa))
  {
    if rs != [] {
      RightOnlyUnique(rs[1..], names, wa);
      assert Fresh(rs[0].geoname, rs[1..]);
      RightOnlyNamed(rs[1..], names, wa);
    }
  }

  /** Two tables with one row per geography join into a table with one row per geography. */
  lemma OuterJoinUnique(a: WideTable, b: WideTable)
    requires Unique(a.rows) && Unique(b.rows)
    ensures Unique(OuterJoin(a, b).rows)
  {
    var left := JoinLeft(a.rows, b.rows, |b.columns|);
    var right := RightOnly(b.rows, Names(a.rows), |a.columns|);
    JoinLeftUnique(a.rows, b.rows, |b.columns|);
    RightOnlyUnique(b.rows, Names(a.rows), |a.columns|);
    JoinLeftNamed(a.rows, b.rows, |b.columns|);
    RightOnlyNamed(b.rows, Names(a.rows), |a.columns|);
    forall j | 0 <= j < |right| ensures Fresh(right[j].geoname, left) {
      assert Fresh(right[j].geoname, a.rows);
    }
  }

  /** The rows of geography g in two lists put together. */
  lemma {:induction false} MatchesAppend(x: seq<WideRow>, y: seq<WideRow>, g: string)
    ensures Matches(x + y, g) == Matches(x, g) + Matches(y, g)
  {
    if x == [] {
      assert x + y == y;
    } else {
      var h := if x[0].geoname == g then [x[0]] else [];
      calc {
        Matches(x + y, g);
        { assert (x + y)[0] == x[0]; }
        h + Matches((x + y)[1..], g);
        { assert (x + y)[1..] == x[1..] + y; MatchesAppend(x[1..], y, g); }
        h + (Matches(x[1..], g) + Matches(y, g));
        (h + Matches(x[1..], g)) + Matches(y, g);
      }
    }
  }

  lemma {:induction false} MatchesAll(rows: seq<WideRow>, g: string)
    requires forall k :: 0 <= k < |rows| ==> rows[k].geoname == g
    ensures Matches(rows, g) == rows
  {
    if rows != [] {
      MatchesAll(rows[1..], g);
    }
  }

  /** What one left row contributes for geography g: one row per match, or
      one padded row without a match, when it is named g; nothing otherwise. */
  lemma JoinRowCount(l: WideRow, rs: seq<WideRow>, wb: nat, g: string)
    ensures var ms := Matches(rs, l.geoname);
      var head := if ms == [] then [WideRow(l.geoname, l.cells + Nulls(wb))] else Pair(l, ms);
      |Matches(head, g)| == if l.geoname != g then 0 else if ms == [] then 1 else |ms|
  {
    var ms := Matches(rs, l.geoname);
    var head := if ms == [] then [WideRow(l.geoname, l.cells + Nulls(wb))] else Pair(l, ms);
    if l.geoname == g {
      MatchesAll(head, g);
    } else {
      NoMatches(head, g);
    }
  }

  /** The left part holds, for geography g, c rows per left row of that name,
      where c is its number of right matches, or 1 when it has none. */
  lemma {:induction false} JoinLeftCount(ls: seq<WideRow>, rs: seq<WideRow>, wb: nat, g: string)
    ensures var c := if Matches(rs, g) == [] then 1 else |Matches(rs, g)|;
      |Matches(JoinLeft(ls, rs, wb), g)| == |Matches(ls, g)| * c
  {
    if ls != [] {
      var c := if Matches(rs, g) == [] then 1 else |Matches(rs, g)|;
      var ms := Matches(rs, ls[0].geoname);
      var head := if ms == [] then [WideRow(ls[0].geoname, ls[0].cells + Nulls(wb))] else Pair(ls[0], ms);
      var tail := JoinLeft(ls[1..], rs, wb);
      assert JoinLeft(ls, rs, wb) == head + tail;
      JoinRowCount(ls[0], rs, wb, g);
      JoinLeftCount(ls[1..], rs, wb, g);
      MatchesAppend(head, tail, g);
      var n := |Matches(ls[1..], g)|;
      if ls[0].geoname == g {
        assert |Matches(ls, g)| == n + 1;
        assert (n + 1) * c == n * c + c;
      } else {
        assert |Matches(ls, g)| == n;
      }
    }
  }

  /** The right-only part holds a right row's name exactly when the left side lacks it. */
  lemma {:induction false} RightOnlyCount(rs: seq<WideRow>, names: set<string>, wa: nat, g: string)
    ensures |Matches(RightOnly(rs, names, wa), g)| == if g in names then 0 else |Matches(rs, g)|
  {
    if rs != [] {
      RightOnlyCount(rs[1..], names, wa, g);
      var head := if rs[0].geoname in names then [] else [WideRow(rs[0].geoname, Nulls(wa) + rs[0].cells)];
      MatchesAppend(head, RightOnly(rs[1..], names, wa), g);
    }
  }

  /** How often each geography occurs in the outer join: |L|·|R| rows for a
      name with l rows on the left and r on the right, each unmatched row once. */
  lemma OuterJoinCounts(a: WideTable, b: WideTable, g: string)
    ensures var l, r := |Matches(a.rows, g)|, |Matches(b.rows, g)|;
      |Matches(OuterJoin(a, b).rows, g)| == if l == 0 then r else if r == 0 then l else l * r
  {
    var left := JoinLeft(a.rows, b.rows, |b.columns|);
    var right := RightOnly(b.rows, Names(a.rows), |a.columns|);
    MatchesAppend(left, right, g);
    JoinLeftCount(a.rows, b.rows, |b.columns|, g);
    RightOnlyCount(b.rows, Names(a.rows), |a.columns|, g);
    if g in Names(a.rows) {
      var x :| x in a.rows && x.geoname == g;
      assert x in Matches(a.rows, g);
    } else {
      forall k | 0 <= k < |a.rows| ensures a.rows[k].geoname != g {
        assert a.rows[k] in a.rows;
      }
      NoMatches(a.rows, g);
    }
  }

  /** Metrics whose output names do not clash keep their column names unchanged. */
  lemma JoinColumnsDisjoint(a: seq<string>, b: seq<string>)
    requires forall c :: c in a ==> c !in b
    ensures JoinColumns(a, b) == a + b
  {
    assert Suffixed(a, b, "_x") == a;
    assert Suffixed(b, a, "_y") == b;
  }

  // ---------------------------------------------------------------------
  // The accumulating merge

  lemma WidenNames(o: Output)
    ensures Names(Widen(o).rows) == MetricNames(o.table)
  {
    var m := o.table;
    var t := Widen(o);
    forall g | g in MetricNames(m) ensures g in Names(t.rows) {
      var r :| r in m.rows && r.geoname == g;
      var i :| 0 <= i < |m.rows| && m.rows[i] == r;
      assert t.rows[i] in t.rows;
    }
  }

  /** `mergeMetricDataframes`: an accumulator pandas calls empty is replaced by
      the metric's table, so whatever geographies it had are lost; otherwise
      the two are outer-joined and the geographies of both are kept. */
  function MergeMetricTables(acc: WideTable, o: Output): (t: WideTable)
    ensures Names(t.rows) == if IsEmpty(acc) then MetricNames(o.table) else Names(acc.rows) + MetricNames(o.table)
    ensures |t.columns| == if IsEmpty(acc) then |o.table.columns| else |acc.columns| + |o.table.columns|
    ensures t.geonameColumn == (o.geonameColumn || (!IsEmpty(acc) && acc.geonameColumn))
  {
    WidenNames(o);
    if IsEmpty(acc) then Widen(o)
    else
      OuterJoinNames(acc, Widen(o));
      OuterJoin(acc, Widen(o))
  }

  /** The wide table after merging the metric outputs one after another into an empty frame. */
  function MergeAll(os: seq<Output>): (t: WideTable)
  {
    if os == [] then EmptyFrame() else MergeMetricTables(MergeAll(os[..|os| - 1]), os[|os| - 1])
  }

  /** The merge takes the metric's table as it is when pandas calls the accumulator
      empty, whatever columns the accumulator had; otherwise its columns follow the accumulator's. */
  lemma MergeColumns(acc: WideTable, o: Output)
    ensures IsEmpty(acc) ==> MergeMetricTables(acc, o).columns == o.table.columns
    ensures !IsEmpty(acc) && (forall c :: c in acc.columns ==> c !in o.table.columns) ==>
      MergeMetricTables(acc, o).columns == acc.columns + o.table.columns
  {
    if !IsEmpty(acc) && (forall c :: c in acc.columns ==> c !in o.table.columns) {
      JoinColumnsDisjoint(acc.columns, o.table.columns);
    }
  }

  /** A metric output with at least one column, `geoname` included: pandas calls
      it empty only when it has no rows. A ratio metric without key fields has
      no column, its names being its index. */
  predicate HasColumn(o: Output)
  {
    o.geonameColumn || |o.table.columns| > 0
  }

  /** Every geography name seen in any of the metric outputs. */
  function AllNames(os: seq<Output>): (s: set<string>)
  {
    if os == [] then {} else AllNames(os[..|os| - 1]) + MetricNames(os[|os| - 1].table)
  }

  /** A name is seen in the metric outputs exactly when one of them has it. */
  lemma {:induction false} AllNamesMembers(os: seq<Output>)
    ensures forall g :: g in AllNames(os) <==> exists o :: o in os && g in MetricNames(o.table)
  {
    if os != [] {
      var init, last := os[..|os| - 1], os[|os| - 1];
      AllNamesMembers(init);
      assert os == init + [last];
      assert forall o :: o in os <==> o in init || o == last;
    }
  }

  /** When every metric output has a column, the merged table covers exactly the
      union of the geographies of all metrics, and pandas calls it empty only
      while it has no rows. */
  lemma {:induction false} MergeAllNames(os: seq<Output>)
    requires forall o :: o in os ==> HasColumn(o)
    ensures Names(MergeAll(os).rows) == AllNames(os)
    ensures IsEmpty(MergeAll(os)) ==> |MergeAll(os).rows| == 0
  {
    if os != [] {
      var init := os[..|os| - 1];
      assert forall o :: o in init ==> o in os;
      MergeAllNames(init);
      assert os[|os| - 1] in os;
    }
  }

  /** When every metric output has a column, merging the same outputs in any
      order covers the same geographies. */
  lemma MergeOrderIndependent(os: seq<Output>, ps: seq<Output>)
    requires forall o :: o in os <==> o in ps
    requires forall o :: o in os ==> HasColumn(o)
    ensures Names(MergeAll(os).rows) == Names(MergeAll(ps).rows)
  {
    MergeAllNames(os);
    MergeAllNames(ps);
    AllNamesMembers(os);
    AllNamesMembers(ps);
  }

  /** Without that condition the order matters: a ratio metric without key
      fields, merged first, is replaced by the next metric and its geographies
      are lost ... */
  lemma ColumnlessFirstDropped(j: Output, r: Output)
    requires |j.table.rows| > 0 && !HasColumn(j)
    ensures Names(MergeAll([j, r]).rows) == MetricNames(r.table)
  {
    MergeAllStep([], j);
    assert [] + [j] == [j];
    var wj := MergeAll([j]);
    assert wj == Widen(j);
    assert IsEmpty(wj);
    MergeAllStep([j], r);
    assert [j] + [r] == [j, r];
  }

  /** ... while merged after a rollup with rows they are kept. */
  lemma ColumnlessLaterKept(j: Output, r: Output)
    requires |r.table.rows| > 0 && r.geonameColumn
    ensures Names(MergeAll([r, j]).rows) == MetricNames(r.table) + MetricNames(j.table)
  {
    MergeAllStep([], r);
    assert [] + [r] == [r];
    var wr := MergeAll([r]);
    assert wr == Widen(r);
    assert !IsEmpty(wr);
    WidenNames(r);
    MergeAllStep([r], j);
    assert [r] + [j] == [r, j];
  }

  // ---------------------------------------------------------------------
  // What each aggregator hands to the merge

  /** A ratio metric's table: `geoname` is its index, set by `groupby("geoname")` (lines 153, 185-186). */
  function JobsOutput(m: MetricTable): (o: Output)
    ensures o.table == m && !o.geonameColumn
  {
    Output(m, false)
  }

  /** A rollup's table: `geoname` is one of its columns (lines 251, 262), so it always has a column. */
  function RollupOutput(m: MetricTable): (o: Output)
    ensures o.table == m && o.geonameColumn && HasColumn(o)
  {
    Output(m, true)
  }

  /** A ratio metric over a layer with no key field has no column at all:
      pandas calls it empty even when it has rows. */
  lemma KeylessJobsColumnless(src: Frame, cfg: JobsBy.JobsConfig)
    requires JobsBy.Typed(src, cfg) && JobsBy.AreasDivisible(src, cfg)
    requires JobsBy.JobsBySpec(src, cfg).Ok? && JobsBy.KeyFields(src, cfg) == []
    ensures !HasColumn(JobsOutput(JobsBy.JobsBySpec(src, cfg).value))
  {
  }

  /** Such a ratio metric, merged first, is replaced by the next metric
      whatever rows it had, and none of its geographies reach the wide table. */
  lemma KeylessJobsFirstDropped(src: Frame, cfg: JobsBy.JobsConfig, next: Output)
    requires JobsBy.Typed(src, cfg) && JobsBy.AreasDivisible(src, cfg)
    requires JobsBy.JobsBySpec(src, cfg).Ok? && JobsBy.KeyFields(src, cfg) == []
    requires |JobsBy.JobsBySpec(src, cfg).value.rows| > 0
    ensures var j := JobsOutput(JobsBy.JobsBySpec(src, cfg).value);
      Names(MergeAll([j, next]).rows) == MetricNames(next.table)
  {
    KeylessJobsColumnless(src, cfg);
    ColumnlessFirstDropped(JobsOutput(JobsBy.JobsBySpec(src, cfg).value), next);
  }

  /** One more output merged into the accumulated table. */
  lemma MergeAllStep(os: seq<Output>, o: Output)
    ensures MergeAll(os + [o]) == MergeMetricTables(MergeAll(os), o)
  {
    assert (os + [o])[..|os|] == os;
  }
}
