/** `groupby(key).sum()` over per-row value lists, and the per-metric
    result table the two aggregators produce. */
module Groups {

  /** One row entering or leaving a group-by: its group key and one value per output column. */
  datatype Tally = Tally(key: string, values: seq<real>)

  /** One row of a metric result: its index key, its `geoname` and one value per output column. */
  datatype MetricRow = MetricRow(index: string, geoname: string, values: seq<real>)

  /** A metric result: the output value column names (geoname aside) and its rows. */
  datatype MetricTable = MetricTable(columns: seq<string>, rows: seq<MetricRow>)

  /** Why an aggregator raises instead of returning a table. */
  datatype Failure =
    | MissingColumn(column: string)   // a `KeyError` naming an absent column
    | UnboundWeightedFields           // the `NameError` of an area pass run without a geography field
    | NothingToConcatenate            // `pd.concat` of an empty list

  datatype Result<+T> = Ok(value: T) | Err(failure: Failure)

  predicate Uniform(ts: seq<Tally>, w: nat)
  {
    forall i :: 0 <= i < |ts| ==> |ts[i].values| == w
  }

  predicate DistinctKeys(ts: seq<Tally>)
  {
    forall i, j :: 0 <= i < j < |ts| ==> ts[i].key != ts[j].key
  }

  function Keys(ts: seq<Tally>): set<string>
  {
    if ts == [] then {} else {ts[0].key} + Keys(ts[1..])
  }

  lemma {:induction false} KeysAt(ts: seq<Tally>)
    ensures forall k :: k in Keys(ts) <==> exists i :: 0 <= i < |ts| && ts[i].key == k
  {
    if ts != [] {
      KeysAt(ts[1..]);
      forall k | k in Keys(ts) ensures exists i :: 0 <= i < |ts| && ts[i].key == k {
        if k != ts[0].key {
          assert k in Keys(ts[1..]);
          var i :| 0 <= i < |ts[1..]| && ts[1..][i].key == k;
          assert ts[i + 1].key == k;
        }
      }
      forall i | 0 <= i < |ts| ensures ts[i].key in Keys(ts) {
        if i > 0 {
          assert ts[1..][i - 1].key == ts[i].key;
        }
      }
    }
  }

  /** Column c summed over the rows labelled `key`. */
  function SumAt(ts: seq<Tally>, key: string, c: nat): real
    requires forall i :: 0 <= i < |ts| ==> c < |ts[i].values|
  {
    if ts == [] then 0.0
    else (if ts[0].key == key then ts[0].values[c] else 0.0) + SumAt(ts[1..], key, c)
  }

  /** How many rows carry `key`. */
  function CountAt(ts: seq<Tally>, key: string): nat
  {
    if ts == [] then 0
    else (if ts[0].key == key then 1 else 0) + CountAt(ts[1..], key)
  }

  lemma {:induction false} CountAtPositive(ts: seq<Tally>, key: string)
    requires key in Keys(ts)
    ensures CountAt(ts, key) > 0
  {
    if ts[0].key != key {
      CountAtPositive(ts[1..], key);
    }
  }

  /** Column c of the first row labelled `key`, or 0 when there is none. */
  function ValueAt(ts: seq<Tally>, key: string, c: nat): real
    requires forall i :: 0 <= i < |ts| ==> c < |ts[i].values|
  {
    if ts == [] then 0.0
    else if ts[0].key == key then ts[0].values[c]
    else ValueAt(ts[1..], key, c)
  }

  function Plus(a: seq<real>, b: seq<real>): (r: seq<real>)
    requires |a| == |b|
    ensures |r| == |a|
    ensures forall i :: 0 <= i < |a| ==> r[i] == a[i] + b[i]
  {
    seq(|a|, i requires 0 <= i < |a| => a[i] + b[i])
  }

  /** Adds one row into a list of groups: into the group with its key, or as a new group. */
  function Absorb(gs: seq<Tally>, t: Tally, w: nat): (r: seq<Tally>)
    requires Uniform(gs, w) && |t.values| == w
    ensures Uniform(r, w)
  {
    if gs == [] then [t]
    else if gs[0].key == t.key then [Tally(t.key, Plus(gs[0].values, t.values))] + gs[1..]
    else [gs[0]] + Absorb(gs[1..], t, w)
  }

  /** `groupby(key).sum()`: one row per key, holding the column sums of that key's rows. */
  function GroupSum(ts: seq<Tally>, w: nat): (r: seq<Tally>)
    requires Uniform(ts, w)
    ensures Uniform(r, w)
  {
    if ts == [] then [] else Absorb(GroupSum(ts[1..], w), ts[0], w)
  }

  lemma {:induction false} AbsorbKeys(gs: seq<Tally>, t: Tally, w: nat)
    requires Uniform(gs, w) && |t.values| == w && DistinctKeys(gs)
    ensures DistinctKeys(Absorb(gs, t, w))
    ensures Keys(Absorb(gs, t, w)) == Keys(gs) + {t.key}
  {
    if gs != [] && gs[0].key != t.key {
      var rest := Absorb(gs[1..], t, w);
      AbsorbKeys(gs[1..], t, w);
      assert Absorb(gs, t, w)[1..] == rest;
      KeysAt(gs[1..]);
      KeysAt(rest);
      assert forall i :: 0 <= i < |gs[1..]| ==> gs[1..][i].key != gs[0].key;
      assert gs[0].key !in Keys(gs[1..]);
      assert gs[0].key !in Keys(rest);
      assert forall j :: 0 <= j < |rest| ==> rest[j].key in Keys(rest);
    }
  }

  lemma {:induction false} AbsorbValues(gs: seq<Tally>, t: Tally, w: nat, key: string, c: nat)
    requires Uniform(gs, w) && |t.values| == w && DistinctKeys(gs) && c < w
    ensures ValueAt(Absorb(gs, t, w), key, c) == ValueAt(gs, key, c) + (if t.key == key then t.values[c] else 0.0)
  {
    if gs != [] {
      if gs[0].key == t.key {
        if key != t.key {
          KeysAt(gs[1..]);
          assert forall i :: 0 <= i < |gs[1..]| ==> gs[1..][i].key != t.key;
          assert Absorb(gs, t, w)[1..] == gs[1..];
        }
      } else {
        AbsorbValues(gs[1..], t, w, key, c);
        assert Absorb(gs, t, w)[1..] == Absorb(gs[1..], t, w);
      }
    }
  }

  /** ValueAt reads no value of a key that does not occur. */
  lemma {:induction false} KeyAbsent(ts: seq<Tally>, key: string, c: nat)
    requires forall i :: 0 <= i < |ts| ==> c < |ts[i].values|
    ensures key !in Keys(ts) ==> ValueAt(ts, key, c) == 0.0
  {
    if ts != [] && key !in Keys(ts) {
      KeyAbsent(ts[1..], key, c);
    }
  }

  lemma {:induction false} GroupSumValues(ts: seq<Tally>, w: nat)
    requires Uniform(ts, w)
    ensures DistinctKeys(GroupSum(ts, w))
    ensures Keys(GroupSum(ts, w)) == Keys(ts)
    ensures forall key: string, c: nat :: c < w ==> ValueAt(GroupSum(ts, w), key, c) == SumAt(ts, key, c)
  {
    if ts != [] {
      GroupSumValues(ts[1..], w);
      var rest := GroupSum(ts[1..], w);
      AbsorbKeys(rest, ts[0], w);
      forall key: string, c: nat | c < w
        ensures ValueAt(GroupSum(ts, w), key, c) == SumAt(ts, key, c)
      {
        AbsorbValues(rest, ts[0], w, key, c);
      }
    }
  }

  /** In a list with distinct labels, ValueAt finds each row's own values. */
  lemma {:induction false} ValueAtDistinct(gs: seq<Tally>, i: nat, c: nat)
    requires forall k :: 0 <= k < |gs| ==> c < |gs[k].values|
    requires DistinctKeys(gs) && i < |gs|
    ensures ValueAt(gs, gs[i].key, c) == gs[i].values[c]
  {
    if i > 0 {
      ValueAtDistinct(gs[1..], i - 1, c);
    }
  }

  /** The grouped table has one row per key, and each row's value in each
      column is the sum of that column over the input rows with its key. */
  lemma GroupSumSpec(ts: seq<Tally>, w: nat)
    requires Uniform(ts, w)
    ensures DistinctKeys(GroupSum(ts, w))
    ensures Keys(GroupSum(ts, w)) == Keys(ts)
    ensures forall i: nat, c: nat :: i < |GroupSum(ts, w)| && c < w ==>
      GroupSum(ts, w)[i].values[c] == SumAt(ts, GroupSum(ts, w)[i].key, c)
  {
    var gs := GroupSum(ts, w);
    GroupSumValues(ts, w);
    forall i: nat, c: nat | i < |gs| && c < w ensures gs[i].values[c] == SumAt(ts, gs[i].key, c) {
      ValueAtDistinct(gs, i, c);
    }
  }

  /** Rows all carrying one key collapse into at most one group. */
  lemma {:induction false} GroupSumOneKey(ts: seq<Tally>, w: nat, key: string)
    requires Uniform(ts, w)
    requires forall i :: 0 <= i < |ts| ==> ts[i].key == key
    ensures |GroupSum(ts, w)| == if ts == [] then 0 else 1
  {
    GroupSumValues(ts, w);
    var gs := GroupSum(ts, w);
    KeysAt(ts);
    KeysAt(gs);
    if ts != [] {
      assert Keys(gs) == {key};
      assert forall i :: 0 <= i < |gs| ==> gs[i].key == key;
    }
  }

  /** A grouped table as metric rows: each group's key is both its index and its geoname. */
  function ToMetric(gs: seq<Tally>): (r: seq<MetricRow>)
    ensures |r| == |gs|
    ensures forall i :: 0 <= i < |gs| ==> r[i] == MetricRow(gs[i].key, gs[i].key, gs[i].values)
  {
    seq(|gs|, i requires 0 <= i < |gs| => MetricRow(gs[i].key, gs[i].key, gs[i].values))
  }

  /** Dividing a bracketed total by a positive weight keeps it in the bracket. */
  lemma AverageBounds(v: real, t: real, p: real, lo: real, hi: real)
    requires t >= 0.0 && lo * t <= p <= hi * t
    requires t == 0.0 ==> v == 0.0
    requires t != 0.0 ==> v * t == p
    ensures t != 0.0 ==> lo <= v <= hi
  {
    if t != 0.0 {
      assert (v - lo) * t >= 0.0 && (hi - v) * t >= 0.0;
    }
  }
}
