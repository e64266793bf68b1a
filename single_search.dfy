/** Tier 2, the strict single-neighbour search (`_find_best_adjacent_polygon`):
    the candidate that touches every part along at least `minShared` and has
    the largest positive total shared length; the first such candidate wins a
    tie. */
module SingleSearch {
  import opened Wrappers
  import opened Records

  /** `cand` touches every part, each along at least `minShared`. */
  predicate ValidSingle(topo: Topology, parts: seq<Row>, cand: Row, minShared: real) {
    forall p :: 0 <= p < |parts| ==> Adjacent(topo, cand.geom, parts[p].geom, minShared)
  }

  /** The shared length of `cand` with the first `n` parts. */
  function SharedTotal(topo: Topology, parts: seq<Row>, cand: Row, n: nat): real
    requires n <= |parts|
  {
    if n == 0 then 0.0 else SharedTotal(topo, parts, cand, n - 1) + topo.sharedLen(cand.geom, parts[n - 1].geom)
  }

  function Total(topo: Topology, parts: seq<Row>, cand: Row): real {
    SharedTotal(topo, parts, cand, |parts|)
  }

  /** The loop state `(best_idx, best_shared)`. */
  datatype Best = Best(idx: Option<nat>, shared: real)

  /** The state after the first `n` candidates (lines 134-155). */
  function ScanSingle(topo: Topology, parts: seq<Row>, cands: seq<Row>, minShared: real, n: nat): Best
    requires n <= |cands|
  {
    if n == 0 then Best(None, 0.0)
    else
      var b := ScanSingle(topo, parts, cands, minShared, n - 1);
      var c := cands[n - 1];
      if ValidSingle(topo, parts, c, minShared) && Total(topo, parts, c) > b.shared then Best(Some(n - 1), Total(topo, parts, c))
      else b
  }

  /** What the scan has found after `n` candidates. */
  predicate ScanInvariant(topo: Topology, parts: seq<Row>, cands: seq<Row>, minShared: real, n: nat, b: Best)
    requires n <= |cands|
  {
    match b.idx
    case None =>
      b.shared == 0.0 &&
      forall k :: 0 <= k < n && ValidSingle(topo, parts, cands[k], minShared) ==> Total(topo, parts, cands[k]) <= 0.0
    case Some(m) =>
      m < n && ValidSingle(topo, parts, cands[m], minShared) &&
      b.shared == Total(topo, parts, cands[m]) && b.shared > 0.0 &&
      (forall k :: 0 <= k < n && ValidSingle(topo, parts, cands[k], minShared) ==> Total(topo, parts, cands[k]) <= b.shared) &&
      (forall k :: 0 <= k < m && ValidSingle(topo, parts, cands[k], minShared) ==> Total(topo, parts, cands[k]) < b.shared)
  }

  lemma {:induction false} ScanSingleInvariant(topo: Topology, parts: seq<Row>, cands: seq<Row>, minShared: real, n: nat)
    requires n <= |cands|
    ensures ScanInvariant(topo, parts, cands, minShared, n, ScanSingle(topo, parts, cands, minShared, n))
  {
    if n > 0 {
      ScanSingleInvariant(topo, parts, cands, minShared, n - 1);
    }
  }

  /** The index `_find_best_adjacent_polygon` returns: a valid candidate with a
      positive total that no valid candidate beats and every earlier valid
      candidate falls short of, or `None` exactly when no valid candidate has a
      positive total. */
  function BestSingle(topo: Topology, parts: seq<Row>, cands: seq<Row>, minShared: real): (r: Option<nat>)
    ensures r.Some? ==>
      r.value < |cands| && ValidSingle(topo, parts, cands[r.value], minShared) &&
      Total(topo, parts, cands[r.value]) > 0.0
    ensures r.Some? ==> forall k :: 0 <= k < |cands| && ValidSingle(topo, parts, cands[k], minShared) ==>
      Total(topo, parts, cands[k]) <= Total(topo, parts, cands[r.value])
    ensures r.Some? ==> forall k :: 0 <= k < r.value && ValidSingle(topo, parts, cands[k], minShared) ==>
      Total(topo, parts, cands[k]) < Total(topo, parts, cands[r.value])
    ensures r.None? <==> forall k :: 0 <= k < |cands| && ValidSingle(topo, parts, cands[k], minShared) ==>
      Total(topo, parts, cands[k]) <= 0.0
  {
    ScanSingleInvariant(topo, parts, cands, minShared, |cands|);
    ScanSingle(topo, parts, cands, minShared, |cands|).idx
  }

  /** Lines 125-157. */
  method FindBestAdjacent(topo: Topology, parts: seq<Row>, cands: seq<Row>, minShared: real) returns (bestIdx: Option<nat>)
    ensures bestIdx == BestSingle(topo, parts, cands, minShared)
  {
    bestIdx := None;
    var bestShared := 0.0;
    var k := 0;
    while k < |cands|
      invariant 0 <= k <= |cands|
      invariant Best(bestIdx, bestShared) == ScanSingle(topo, parts, cands, minShared, k)
    {
      var cand := cands[k];
      var totalShared := 0.0;
      var valid := true;
      var p := 0;
      while p < |parts|
        invariant 0 <= p <= |parts|
        invariant valid ==> totalShared == SharedTotal(topo, parts, cand, p)
        invariant valid ==> forall q :: 0 <= q < p ==> Adjacent(topo, cand.geom, parts[q].geom, minShared)
        invariant !valid ==> !ValidSingle(topo, parts, cand, minShared)
      {
        if !topo.touches(cand.geom, parts[p].geom) {
          valid := false;
          break;
        }
        var shared := topo.sharedLen(cand.geom, parts[p].geom);
        if shared < minShared {
          valid := false;
          break;
        }
        totalShared := totalShared + shared;
        p := p + 1;
      }
      if valid && totalShared > bestShared {
        bestShared := totalShared;
        bestIdx := Some(k);
      }
      k := k + 1;
    }
  }
}
