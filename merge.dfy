/** The attribute merger (`_merge_parts_and_targets`, lines 379-437, without
    the id allocation of line 435, which `Relabeller` performs): one row from a
    group of parts and the one or two neighbours absorbed into it. The count
    columns, the population and the lineage come from the first part only; the
    values of the other parts are dropped, and nothing here assumes the parts
    are equal (`MergeUsesFirstPartOnly`). */
module Merge {
  import opened Wrappers
  import opened Text
  import opened Records

  /** `num_cols`, `count_cols` and `pop_col`. */
  datatype Columns = Columns(numCols: seq<string>, countCols: seq<string>, popCol: string)

  /** Line 401: the numeric columns that are averaged rather than summed. */
  function AvgCols(cols: Columns): (s: set<string>)
    ensures forall c :: c in s <==> c in cols.numCols && c !in cols.countCols
  {
    set c | c in cols.numCols && c !in cols.countCols
  }

  /** The row has every column the merge reads. */
  predicate HasColumns(cols: Columns, r: Row) {
    (forall c :: c in cols.numCols ==> c in r.attrs) &&
    (forall c :: c in cols.countCols ==> c in r.attrs) &&
    cols.popCol in r.attrs
  }

  predicate AllHave(ts: seq<Row>, c: string) {
    forall k :: 0 <= k < |ts| ==> c in ts[k].attrs
  }

  /** `sum(t[c] for t in targets)`. */
  function SumCol(ts: seq<Row>, c: string): real
    requires AllHave(ts, c)
  {
    if ts == [] then 0.0 else SumCol(ts[..|ts| - 1], c) + ts[|ts| - 1].attrs[c]
  }

  /** `sum(t[c] * t[pop] for t in targets)`. */
  function SumWeighted(ts: seq<Row>, c: string, pop: string): real
    requires AllHave(ts, c) && AllHave(ts, pop)
  {
    if ts == [] then 0.0 else SumWeighted(ts[..|ts| - 1], c, pop) + ts[|ts| - 1].attrs[c] * ts[|ts| - 1].attrs[pop]
  }

  /** Lines 403-420 for the averaged column `c`. */
  function Averaged(base: Row, ts: seq<Row>, c: string, pop: string): real
    requires c in base.attrs && pop in base.attrs && AllHave(ts, c) && AllHave(ts, pop)
  {
    Blend(base.attrs[c], base.attrs[pop], SumCol(ts, pop), SumWeighted(ts, c, pop))
  }

  /** The blend of lines 411-420: the base value `dupAvg` with population
      `popDup`, and targets with total population `popTargets` and weighted
      sum `weighted`; the base value when there is no population at all. */
  function Blend(dupAvg: real, popDup: real, popTargets: real, weighted: real): real {
    var totalPop := popDup + popTargets;
    if totalPop > 0.0 then
      var targetsAvg := if popTargets > 0.0 then weighted / popTargets else dupAvg;
      dupAvg * (popDup / totalPop) + targetsAvg * (popTargets / totalPop)
    else dupAvg
  }

  /** Lines 423-425: the lineage, base id first, then the target ids. */
  function MergedOrigId(base: Row, ts: seq<Row>): string {
    Join([base.origId] + seq(|ts|, k requires 0 <= k < |ts| => ts[k].origId), '_')
  }

  predicate Mergeable(parts: seq<Row>, ts: seq<Row>, cols: Columns) {
    |parts| > 0 && |ts| > 0 && HasColumns(cols, parts[0]) &&
    forall k :: 0 <= k < |ts| ==> HasColumns(cols, ts[k])
  }

  /** Lines 396-398: every count column of the first part plus the targets. */
  function SummedCounts(base: Row, ts: seq<Row>, cols: Columns): map<string, real>
    requires forall c :: c in cols.countCols ==> c in base.attrs && AllHave(ts, c)
  {
    map c | c in cols.countCols :: base.attrs[c] + SumCol(ts, c)
  }

  /** Lines 401-420: every averaged column, population-weighted. */
  function AveragedCols(base: Row, ts: seq<Row>, cols: Columns): map<string, real>
    requires cols.popCol in base.attrs && AllHave(ts, cols.popCol)
    requires forall c :: c in AvgCols(cols) ==> c in base.attrs && AllHave(ts, c)
  {
    map c | c in AvgCols(cols) :: Averaged(base, ts, c, cols.popCol)
  }

  /** Every row of `ts` has every column the merge reads. */
  predicate AllHaveColumns(ts: seq<Row>, cols: Columns) {
    (forall c :: c in cols.numCols ==> AllHave(ts, c)) &&
    (forall c :: c in cols.countCols ==> AllHave(ts, c)) &&
    AllHave(ts, cols.popCol)
  }

  lemma {:induction false} ColumnsHave(ts: seq<Row>, cols: Columns)
    requires forall k :: 0 <= k < |ts| ==> HasColumns(cols, ts[k])
    ensures AllHaveColumns(ts, cols)
  {
  }

  /** The attributes of the merged row: those of the first target, overridden
      by the summed and the averaged columns. */
  function MergedAttrs(base: Row, ts: seq<Row>, cols: Columns): (m: map<string, real>)
    requires |ts| > 0 && HasColumns(cols, base) && AllHaveColumns(ts, cols)
    ensures m.Keys == ts[0].attrs.Keys + (set c | c in cols.countCols) + AvgCols(cols)
    ensures forall c :: c in cols.countCols ==> m[c] == base.attrs[c] + SumCol(ts, c)
    ensures forall c :: c in AvgCols(cols) ==> m[c] == Averaged(base, ts, c, cols.popCol)
    ensures forall c :: c in ts[0].attrs && c !in cols.numCols && c !in cols.countCols ==> m[c] == ts[0].attrs[c]
  {
    ts[0].attrs + SummedCounts(base, ts, cols) + AveragedCols(base, ts, cols)
  }

  /** Two targets that carry every column can be merged with the parts. */
  lemma {:induction false} PairMergeable(parts: seq<Row>, x: Row, y: Row, cols: Columns)
    requires |parts| > 0 && HasColumns(cols, parts[0]) && HasColumns(cols, x) && HasColumns(cols, y)
    ensures Mergeable(parts, [x, y], cols)
  {
  }

  /** The merged row (lines 427-435) with the already allocated id `newId`: a
      copy of the first target whose geometry is the union of every part and
      target, whose count columns add the targets to the first part, whose
      averaged columns follow `Averaged`, and whose lineage lists the base id and the
      target ids. */
  function MergeRow(parts: seq<Row>, ts: seq<Row>, cols: Columns, newId: string): (r: Row)
    requires Mergeable(parts, ts, cols)
    ensures r.id == newId && r.origId == MergedOrigId(parts[0], ts)
    ensures forall x :: x in r.geom <==>
      (exists i :: 0 <= i < |parts| && x in parts[i].geom) || (exists k :: 0 <= k < |ts| && x in ts[k].geom)
    ensures r.wasMultipart == 1 && r.combAdj == Some(|ts|) && r.labels == ts[0].labels
    ensures r.attrs.Keys == ts[0].attrs.Keys + (set c | c in cols.countCols) + AvgCols(cols)
    ensures forall c :: c in cols.countCols ==> r.attrs[c] == parts[0].attrs[c] + SumCol(ts, c)
    ensures forall c :: c in AvgCols(cols) ==> r.attrs[c] == Averaged(parts[0], ts, c, cols.popCol)
    ensures forall c :: c in ts[0].attrs && c !in cols.numCols && c !in cols.countCols ==> r.attrs[c] == ts[0].attrs[c]
  {
    var base := parts[0];
    ColumnsHave(ts, cols);
    ts[0].(geom := UnionAll(parts) + UnionAll(ts),
           attrs := MergedAttrs(base, ts, cols),
           wasMultipart := 1,
           combAdj := Some(|ts|),
           origId := MergedOrigId(base, ts),
           id := newId)
  }

  // ---------------------------------------------------------------------------
  // Properties of the arithmetic

  /** With a positive target population the averaged value is the
      population-weighted mean of the base and every target. */
  lemma {:induction false} WeightedMean(base: Row, ts: seq<Row>, c: string, pop: string)
    requires c in base.attrs && pop in base.attrs && AllHave(ts, c) && AllHave(ts, pop)
    requires SumCol(ts, pop) > 0.0 && base.attrs[pop] + SumCol(ts, pop) > 0.0
    ensures Averaged(base, ts, c, pop) ==
      (base.attrs[c] * base.attrs[pop] + SumWeighted(ts, c, pop)) / (base.attrs[pop] + SumCol(ts, pop))
  {
    BlendMean(base.attrs[c], base.attrs[pop], SumCol(ts, pop), SumWeighted(ts, c, pop));
  }

  lemma {:induction false} BlendMean(d: real, pd: real, pt: real, w: real)
    requires pt > 0.0 && pd + pt > 0.0
    ensures Blend(d, pd, pt, w) == (d * pd + w) / (pd + pt)
  {
    MeanAlgebra(d, pd, pt, w);
  }

  lemma {:induction false} MeanAlgebra(d: real, pd: real, pt: real, w: real)
    requires pt > 0.0 && pd + pt > 0.0
    ensures d * (pd / (pd + pt)) + (w / pt) * (pt / (pd + pt)) == (d * pd + w) / (pd + pt)
  {
    var total := pd + pt;
    var x, y := w / pt, pt / total;
    assert x * pt == w;
    assert y * total == pt;
    assert (x * y) * total == x * (y * total);
    assert x * y == w / total;
    var z := pd / total;
    assert z * total == pd;
    assert (d * z) * total == d * (z * total);
    assert d * z == (d * pd) / total;
    assert (d * pd) / total + w / total == (d * pd + w) / total;
  }

  /** When the targets bring no population, the merged averages are the base
      values, whatever the base population. */
  lemma {:induction false} ZeroTargetPopulation(base: Row, ts: seq<Row>, c: string, pop: string)
    requires c in base.attrs && pop in base.attrs && AllHave(ts, c) && AllHave(ts, pop)
    requires SumCol(ts, pop) == 0.0
    ensures Averaged(base, ts, c, pop) == base.attrs[c]
  {
    var pd := base.attrs[pop];
    if pd > 0.0 {
      assert pd / (pd + 0.0) == 1.0;
    }
  }

  lemma {:induction false} SumBounds(ts: seq<Row>, c: string, pop: string, lo: real, hi: real)
    requires AllHave(ts, c) && AllHave(ts, pop)
    requires forall k :: 0 <= k < |ts| ==> ts[k].attrs[pop] >= 0.0 && lo <= ts[k].attrs[c] <= hi
    ensures lo * SumCol(ts, pop) <= SumWeighted(ts, c, pop) <= hi * SumCol(ts, pop)
    ensures SumCol(ts, pop) >= 0.0
  {
    if ts != [] {
      var init, last := ts[..|ts| - 1], ts[|ts| - 1];
      SumBounds(init, c, pop, lo, hi);
      StepBounds(SumCol(init, pop), SumWeighted(init, c, pop), last.attrs[pop], last.attrs[c], lo, hi);
    }
  }

  lemma {:induction false} StepBounds(s: real, w: real, p: real, v: real, lo: real, hi: real)
    requires lo * s <= w <= hi * s && p >= 0.0 && lo <= v <= hi
    ensures lo * (s + p) <= w + v * p <= hi * (s + p)
  {
    assert (v - lo) * p >= 0.0;
    assert (hi - v) * p >= 0.0;
    assert lo * (s + p) == lo * s + lo * p;
    assert hi * (s + p) == hi * s + hi * p;
  }

  /** With non-negative populations the merged average lies between the
      smallest and the largest contributing value. */
  lemma {:induction false} AverageBetween(base: Row, ts: seq<Row>, c: string, pop: string, lo: real, hi: real)
    requires c in base.attrs && pop in base.attrs && AllHave(ts, c) && AllHave(ts, pop)
    requires base.attrs[pop] >= 0.0 && lo <= base.attrs[c] <= hi
    requires forall k :: 0 <= k < |ts| ==> ts[k].attrs[pop] >= 0.0 && lo <= ts[k].attrs[c] <= hi
    ensures lo <= Averaged(base, ts, c, pop) <= hi
  {
    SumBounds(ts, c, pop, lo, hi);
    var pd, pt := base.attrs[pop], SumCol(ts, pop);
    var total := pd + pt;
    if total > 0.0 {
      var d := base.attrs[c];
      var t := if pt > 0.0 then SumWeighted(ts, c, pop) / pt else d;
      assert lo <= t <= hi by {
        if pt > 0.0 {
          DivBounds(SumWeighted(ts, c, pop), pt, lo, hi);
        }
      }
      ConvexBounds(d, t, pd, pt, lo, hi);
    }
  }

  lemma {:induction false} DivBounds(w: real, p: real, lo: real, hi: real)
    requires p > 0.0 && lo * p <= w <= hi * p
    ensures lo <= w / p <= hi
  {
    var q := w / p;
    assert q * p == w;
    assert (q - lo) * p >= 0.0;
    assert (hi - q) * p >= 0.0;
  }

  lemma {:induction false} ConvexBounds(d: real, t: real, pd: real, pt: real, lo: real, hi: real)
    requires pd >= 0.0 && pt >= 0.0 && pd + pt > 0.0
    requires lo <= d <= hi && lo <= t <= hi
    ensures lo <= d * (pd / (pd + pt)) + t * (pt / (pd + pt)) <= hi
  {
    var total := pd + pt;
    var a, b := pd / total, pt / total;
    assert a * total == pd && b * total == pt;
    assert (a + b) * total == a * total + b * total;
    assert a + b == 1.0;
    assert a >= 0.0 && b >= 0.0;
    assert (d - lo) * a >= 0.0 && (t - lo) * b >= 0.0;
    assert (hi - d) * a >= 0.0 && (hi - t) * b >= 0.0;
    assert lo * a + lo * b == lo * (a + b);
    assert hi * a + hi * b == hi * (a + b);
  }

  /** The worked example: base value 12.0 with population 50 absorbing a
      neighbour with value 20.0 and population 50 gives 16.0. */
  lemma {:induction false} HalfAndHalf(base: Row, t: Row)
    requires base.attrs == map["n_per" := 50.0, "prom_escolaridad18" := 12.0]
    requires t.attrs == map["n_per" := 50.0, "prom_escolaridad18" := 20.0]
    ensures Averaged(base, [t], "prom_escolaridad18", "n_per") == 16.0
  {
    assert [t][..0] == [];
    assert SumCol([t], "n_per") == 50.0;
    assert SumWeighted([t], "prom_escolaridad18", "n_per") == 1000.0;
  }

  // ---------------------------------------------------------------------------
  // Properties of the merged row

  /** Only the first part's attributes matter: the other parts contribute
      their geometry and nothing else. */
  lemma {:induction false} MergeUsesFirstPartOnly(parts: seq<Row>, ts: seq<Row>, cols: Columns, newId: string)
    requires Mergeable(parts, ts, cols)
    ensures MergeRow(parts, ts, cols, newId).attrs == MergeRow(parts[..1], ts, cols, newId).attrs
    ensures MergeRow(parts, ts, cols, newId).origId == MergeRow(parts[..1], ts, cols, newId).origId
  {
    var r, r1 := MergeRow(parts, ts, cols, newId), MergeRow(parts[..1], ts, cols, newId);
    assert parts[..1][0] == parts[0];
    assert r.attrs.Keys == r1.attrs.Keys;
    forall c | c in r.attrs
      ensures r.attrs[c] == r1.attrs[c]
    {
    }
  }

  /** With one target, a count column is the first part's value plus the
      target's. */
  lemma {:induction false} SingleTargetCounts(parts: seq<Row>, t: Row, cols: Columns, newId: string, c: string)
    requires HasColumns(cols, t) && Mergeable(parts, [t], cols) && c in cols.countCols
    ensures MergeRow(parts, [t], cols, newId).attrs[c] == parts[0].attrs[c] + t.attrs[c]
  {
    assert [t][..0] == [];
    assert SumCol([t], c) == t.attrs[c];
  }

  /** The lineage splits back into the base id and the target ids when none of
      them contains '_'. */
  lemma {:induction false} LineageRoundTrip(base: Row, ts: seq<Row>)
    requires '_' !in base.origId && forall k :: 0 <= k < |ts| ==> '_' !in ts[k].origId
    ensures Split(MergedOrigId(base, ts), '_') == [base.origId] + seq(|ts|, k requires 0 <= k < |ts| => ts[k].origId)
  {
    var ids := [base.origId] + seq(|ts|, k requires 0 <= k < |ts| => ts[k].origId);
    assert forall i :: 0 <= i < |ids| ==> '_' !in ids[i] by {
      forall i | 0 <= i < |ids|
        ensures '_' !in ids[i]
      {
        if i > 0 {
          assert ids[i] == ts[i - 1].origId;
        }
      }
    }
    SplitJoin(ids, '_');
  }
}
