/** The contiguity test of tier 1 (`_are_parts_contiguous`). It is a per-part
    degree check: every part needs one sibling it touches along at least
    `minShared`; the parts need not form one connected group. */
module Contiguity {
  import opened Records

  /** Part `i` touches some other part along at least `minShared`. */
  predicate HasSibling(topo: Topology, parts: seq<Row>, i: nat, minShared: real) {
    i < |parts| && exists j :: 0 <= j < |parts| && j != i && Adjacent(topo, parts[i].geom, parts[j].geom, minShared)
  }

  /** What the test accepts: zero or one part, or every part has a sibling. */
  predicate WeaklyContiguous(topo: Topology, parts: seq<Row>, minShared: real) {
    |parts| <= 1 || forall i :: 0 <= i < |parts| ==> HasSibling(topo, parts, i, minShared)
  }

  /** Lines 100-123. */
  method AreContiguous(topo: Topology, parts: seq<Row>, minShared: real) returns (r: bool)
    ensures r == WeaklyContiguous(topo, parts, minShared)
    ensures |parts| <= 1 ==> r
  {
    var i: nat := 0;
    while i < |parts|
      invariant 0 <= i <= |parts|
      invariant |parts| <= 1 || forall k :: 0 <= k < i ==> HasSibling(topo, parts, k, minShared)
    {
      var touchesAny := false;
      var j: nat := 0;
      while j < |parts|
        invariant 0 <= j <= |parts|
        invariant touchesAny ==> HasSibling(topo, parts, i, minShared)
        invariant !touchesAny ==>
          forall k :: 0 <= k < j && k != i ==> !Adjacent(topo, parts[i].geom, parts[k].geom, minShared)
      {
        if i != j && topo.touches(parts[i].geom, parts[j].geom) {
          var shared := topo.sharedLen(parts[i].geom, parts[j].geom);
          if shared >= minShared {
            touchesAny := true;
            break;
          }
        }
        j := j + 1;
      }
      if !touchesAny && |parts| > 1 {
        assert !HasSibling(topo, parts, i, minShared);
        return false;
      }
      i := i + 1;
    }
    return true;
  }

  /** The parts fall into two non-empty sides with no adjacency across them:
      the group is not connected. */
  predicate SplitsApart(topo: Topology, parts: seq<Row>, minShared: real, side: seq<bool>) {
    |side| == |parts| &&
    (exists i :: 0 <= i < |side| && side[i]) &&
    (exists i :: 0 <= i < |side| && !side[i]) &&
    forall i, j :: 0 <= i < |parts| && 0 <= j < |parts| && side[i] != side[j] ==>
      !Adjacent(topo, parts[i].geom, parts[j].geom, minShared)
  }

  /** Two groups that each pass the test pass it together, whether or not any
      part of one touches a part of the other. */
  lemma {:induction false} ConcatContiguous(topo: Topology, xs: seq<Row>, ys: seq<Row>, minShared: real)
    requires |xs| >= 2 && |ys| >= 2
    requires WeaklyContiguous(topo, xs, minShared) && WeaklyContiguous(topo, ys, minShared)
    ensures WeaklyContiguous(topo, xs + ys, minShared)
  {
    var zs := xs + ys;
    forall i | 0 <= i < |zs|
      ensures HasSibling(topo, zs, i, minShared)
    {
      if i < |xs| {
        assert HasSibling(topo, xs, i, minShared);
        var j :| 0 <= j < |xs| && j != i && Adjacent(topo, xs[i].geom, xs[j].geom, minShared);
        assert zs[i] == xs[i] && zs[j] == xs[j];
      } else {
        var i' := i - |xs|;
        assert HasSibling(topo, ys, i', minShared);
        var j :| 0 <= j < |ys| && j != i' && Adjacent(topo, ys[i'].geom, ys[j].geom, minShared);
        assert zs[i] == ys[i'] && zs[|xs| + j] == ys[j];
      }
    }
  }

  /** Cells 0-1 and 2-3 are glued along length 10; nothing else touches. */
  function TwoPairs(): Topology {
    Topology(
      (a: Geom, b: Geom) => (0 in a && 1 in b) || (1 in a && 0 in b) || (2 in a && 3 in b) || (3 in a && 2 in b),
      (a: Geom, b: Geom) => 10.0)
  }

  /** Two separate adjacent pairs pass the test although the group is in two
      pieces. */
  lemma {:induction false} TwoSeparatePairsAccepted()
    ensures var parts := [Piece(0), Piece(1), Piece(2), Piece(3)];
      WeaklyContiguous(TwoPairs(), parts, 5.0) &&
      SplitsApart(TwoPairs(), parts, 5.0, [true, true, false, false])
  {
    var topo := TwoPairs();
    var xs, ys := [Piece(0), Piece(1)], [Piece(2), Piece(3)];
    assert HasSibling(topo, xs, 0, 5.0) by { assert Adjacent(topo, xs[0].geom, xs[1].geom, 5.0); }
    assert HasSibling(topo, xs, 1, 5.0) by { assert Adjacent(topo, xs[1].geom, xs[0].geom, 5.0); }
    assert HasSibling(topo, ys, 0, 5.0) by { assert Adjacent(topo, ys[0].geom, ys[1].geom, 5.0); }
    assert HasSibling(topo, ys, 1, 5.0) by { assert Adjacent(topo, ys[1].geom, ys[0].geom, 5.0); }
    ConcatContiguous(topo, xs, ys, 5.0);
    var parts := xs + ys;
    assert parts == [Piece(0), Piece(1), Piece(2), Piece(3)];
    var side := [true, true, false, false];
    assert side[0] && !side[2];
    forall i, j | 0 <= i < 4 && 0 <= j < 4 && side[i] != side[j]
      ensures !Adjacent(topo, parts[i].geom, parts[j].geom, 5.0)
    {
      assert parts[i].geom == {i} && parts[j].geom == {j};
    }
  }

  /** Parts A and B touch along length 10 and C touches nothing: the test
      rejects the group, because C has no sibling. */
  lemma {:induction false} IsolatedPartRejected()
    ensures !WeaklyContiguous(TwoPairs(), [Piece(0), Piece(1), Piece(5)], 5.0)
  {
    var parts := [Piece(0), Piece(1), Piece(5)];
    assert !HasSibling(TwoPairs(), parts, 2, 5.0) by {
      forall j | 0 <= j < 3 && j != 2
        ensures !Adjacent(TwoPairs(), parts[2].geom, parts[j].geom, 5.0)
      {
        assert parts[2].geom == {5};
      }
    }
  }
}
