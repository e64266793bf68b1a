/** Polygon records and the geometric oracles the resolution engine consults. */
module Records {
  import opened Wrappers

  type Cell = int

  /** A polygon, abstracted as the set of cells it covers: `union` is set union. */
  type Geom = set<Cell>

  /** One row of a block GeoDataFrame. `attrs` holds the numeric columns
      (`n_per`, `n_vp_ocupada`, `prom_escolaridad18`, ...), `labels` the
      descriptive ones (`commune`, `commune_id`, `zone_type`, ...).
      `combAdj` is `None` on rows that never received a `comb_adj` value. */
  datatype Row = Row(
    id: string,
    origId: string,
    geom: Geom,
    attrs: map<string, real>,
    labels: map<string, string>,
    wasMultipart: nat,
    combAdj: Option<nat>)

  /** `g1.touches(g2)` and `g1.boundary.intersection(g2.boundary).length`. */
  datatype Topology = Topology(touches: (Geom, Geom) -> bool, sharedLen: (Geom, Geom) -> real)

  /** Touching with a shared boundary of at least `minShared`. */
  predicate Adjacent(topo: Topology, g1: Geom, g2: Geom, minShared: real) {
    topo.touches(g1, g2) && topo.sharedLen(g1, g2) >= minShared
  }

  /** `union_all()` over the geometries of `rows`. */
  function UnionAll(rows: seq<Row>): (u: Geom)
    ensures forall x :: x in u <==> exists i :: 0 <= i < |rows| && x in rows[i].geom
  {
    if rows == [] then {}
    else
      var rest := UnionAll(rows[..|rows| - 1]);
      assert forall i :: 0 <= i < |rows| - 1 ==> rows[..|rows| - 1][i] == rows[i];
      rest + rows[|rows| - 1].geom
  }

  /** The rows at positions `idx`, in that order (`df.loc[idx]`). */
  function Gather<T>(rows: seq<T>, idx: seq<nat>): (r: seq<T>)
    requires forall k :: 0 <= k < |idx| ==> idx[k] < |rows|
    ensures |r| == |idx| && forall k :: 0 <= k < |idx| ==> r[k] == rows[idx[k]]
  {
    seq(|idx|, k requires 0 <= k < |idx| => rows[idx[k]])
  }

  /** The positions below `n` that are not in `drop`, in ascending order
      (`KeptIdxAscending`). */
  function KeptIdx(drop: seq<nat>, n: nat): (idx: seq<nat>)
    ensures forall k :: 0 <= k < |idx| ==> idx[k] < n
    ensures forall i: nat :: i in idx <==> i < n && i !in drop
  {
    if n == 0 then [] else KeptIdx(drop, n - 1) + (if n - 1 in drop then [] else [n - 1])
  }

  /** The kept positions are strictly increasing. */
  lemma {:induction false} KeptIdxAscending(drop: seq<nat>, n: nat)
    ensures forall k, k' :: 0 <= k < k' < |KeptIdx(drop, n)| ==> KeptIdx(drop, n)[k] < KeptIdx(drop, n)[k']
  {
    if n > 0 {
      KeptIdxAscending(drop, n - 1);
      var a := KeptIdx(drop, n - 1);
      var idx := KeptIdx(drop, n);
      assert idx == a + (if n - 1 in drop then [] else [n - 1]);
      forall k, k' | 0 <= k < k' < |idx| ensures idx[k] < idx[k'] {
        if k' < |a| {
          assert idx[k] == a[k] && idx[k'] == a[k'];
          assert a[k] < a[k'];
        } else {
          assert idx[k] == a[k] && idx[k'] == n - 1;
          assert a[k] < n - 1;
        }
      }
    }
  }

  /** `df.drop(index=drop)`: the rows of `rows[..n]` at the ascending
      positions that are not in `drop`, each once. */
  function Keep<T>(rows: seq<T>, drop: seq<nat>, n: nat): (r: seq<T>)
    requires n <= |rows|
    ensures |r| == |KeptIdx(drop, n)|
    ensures forall i :: 0 <= i < n && i !in drop ==> rows[i] in r
    ensures forall x :: x in r ==> exists i :: 0 <= i < n && i !in drop && rows[i] == x
  {
    var idx := KeptIdx(drop, n);
    var r := Gather(rows, idx);
    assert forall i: nat :: i < n && i !in drop ==> exists k :: 0 <= k < |idx| && idx[k] == i && r[k] == rows[i];
    r
  }

  /** A row covering the single cell `c`, with no attributes (for examples). */
  function Piece(c: Cell): Row {
    Row("", "", {c}, map[], map[], 0, None)
  }
}
