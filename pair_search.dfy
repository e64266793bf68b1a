/** Tier 3, the two-hop pair search of `_merge_remaining_with_two_targets`
    (lines 280-362): among the candidates that touch at least one part, the
    pair that touch each other along at least `minShared` and together touch
    every part, ranked by (total shared length with the parts, shared length
    between the two), the earliest pair winning a tie. Part touches here are
    plain `touches`, with no length threshold. */
module PairSearch {
  import opened Wrappers
  import opened Records

  /** The parts `cand` touches (line 293-296), as positions in `parts`. */
  function TouchSet(topo: Topology, parts: seq<Row>, cand: Row): (s: set<nat>)
    ensures forall p: nat :: p in s <==> p < |parts| && topo.touches(cand.geom, parts[p].geom)
  {
    set p: nat | p < |parts| && topo.touches(cand.geom, parts[p].geom)
  }

  /** `set(parts.index)`: the positions below `n`. */
  function AllParts(n: nat): (s: set<nat>)
    ensures forall p: nat :: p in s <==> p < n
  {
    if n == 0 then {} else AllParts(n - 1) + {n - 1}
  }

  predicate TouchesAny(topo: Topology, parts: seq<Row>, cand: Row) {
    exists p :: 0 <= p < |parts| && topo.touches(cand.geom, parts[p].geom)
  }

  /** The positions, below `n`, of the candidates touching some part, in order
      (`touching_candidates`). */
  function TouchingUpTo(topo: Topology, parts: seq<Row>, cands: seq<Row>, n: nat): (tl: seq<nat>)
    requires n <= |cands|
    ensures forall q :: 0 <= q < |tl| ==> tl[q] < n
    ensures forall q, q' :: 0 <= q < q' < |tl| ==> tl[q] < tl[q']
    ensures forall k: nat :: k in tl <==> k < n && TouchesAny(topo, parts, cands[k])
  {
    if n == 0 then []
    else TouchingUpTo(topo, parts, cands, n - 1) + (if TouchesAny(topo, parts, cands[n - 1]) then [n - 1] else [])
  }

  /** The shared length of `cand` with the parts of `s` among the first `n`
      (the sums of lines 338-349). */
  function SetShared(topo: Topology, parts: seq<Row>, cand: Row, s: set<nat>, n: nat): real
    requires n <= |parts|
  {
    if n == 0 then 0.0
    else SetShared(topo, parts, cand, s, n - 1) + (if n - 1 in s then topo.sharedLen(cand.geom, parts[n - 1].geom) else 0.0)
  }

  /** The total shared length of `cand` with the parts it touches. */
  function PartShared(topo: Topology, parts: seq<Row>, cand: Row): real {
    SetShared(topo, parts, cand, TouchSet(topo, parts, cand), |parts|)
  }

  /** One element of `valid_pairs`. */
  datatype PairEntry = PairEntry(first: nat, second: nat, total: real, shared: real)

  /** The two candidates touch each other along at least `minShared` and
      together touch every part (lines 318-332). */
  predicate PairOk(topo: Topology, parts: seq<Row>, c1: Row, c2: Row, minShared: real) {
    Adjacent(topo, c1.geom, c2.geom, minShared) &&
    TouchSet(topo, parts, c1) + TouchSet(topo, parts, c2) == AllParts(|parts|)
  }

  function Entry(topo: Topology, parts: seq<Row>, cands: seq<Row>, a: nat, b: nat): PairEntry
    requires a < |cands| && b < |cands|
  {
    PairEntry(a, b,
      PartShared(topo, parts, cands[a]) + PartShared(topo, parts, cands[b]),
      topo.sharedLen(cands[a].geom, cands[b].geom))
  }

  /** A pair the search may choose: two touching candidates, in order, that
      qualify. */
  predicate ValidPair(topo: Topology, parts: seq<Row>, cands: seq<Row>, minShared: real, a: nat, b: nat) {
    a < b < |cands| &&
    TouchesAny(topo, parts, cands[a]) && TouchesAny(topo, parts, cands[b]) &&
    PairOk(topo, parts, cands[a], cands[b], minShared)
  }

  /** The entries `entry(tl[i], tl[j])` of the pairs with `i < j < m` that pass
      `ok`, in order of `j`. */
  function RowPairs(tl: seq<nat>, i: nat, m: nat, ok: (nat, nat) -> bool, entry: (nat, nat) -> PairEntry): seq<PairEntry>
    requires i < |tl| && m <= |tl|
  {
    if m <= i + 1 then []
    else
      RowPairs(tl, i, m - 1, ok, entry) +
      (if ok(tl[i], tl[m - 1]) then [entry(tl[i], tl[m - 1])] else [])
  }

  /** The entries of the passing pairs `(tl[i], tl[j])` with `i < n` and `i < j`,
      row by row. */
  function AllPairs(tl: seq<nat>, n: nat, ok: (nat, nat) -> bool, entry: (nat, nat) -> PairEntry): seq<PairEntry>
    requires n <= |tl|
  {
    if n == 0 then []
    else AllPairs(tl, n - 1, ok, entry) + RowPairs(tl, n - 1, |tl|, ok, entry)
  }

  /** Whether `cands[a]` and `cands[b]` qualify as a pair. */
  function OkFor(topo: Topology, parts: seq<Row>, cands: seq<Row>, minShared: real): (nat, nat) -> bool {
    (a: nat, b: nat) => a < |cands| && b < |cands| && PairOk(topo, parts, cands[a], cands[b], minShared)
  }

  /** The entry `valid_pairs` gets for `cands[a]` and `cands[b]`. */
  function EntryFor(topo: Topology, parts: seq<Row>, cands: seq<Row>): (nat, nat) -> PairEntry {
    (a: nat, b: nat) => if a < |cands| && b < |cands| then Entry(topo, parts, cands, a, b) else PairEntry(a, b, 0.0, 0.0)
  }

  /** `valid_pairs` after the loops of lines 311-351. */
  function ValidPairs(topo: Topology, parts: seq<Row>, cands: seq<Row>, minShared: real): seq<PairEntry> {
    var tl := TouchingUpTo(topo, parts, cands, |cands|);
    AllPairs(tl, |tl|, OkFor(topo, parts, cands, minShared), EntryFor(topo, parts, cands))
  }

  /** The sort key `(total, shared)` of `x` is below that of `y`. */
  predicate KeyLess(x: PairEntry, y: PairEntry) {
    x.total < y.total || (x.total == y.total && x.shared < y.shared)
  }

  /** Pair `x` is enumerated before pair `y`. */
  predicate PairBefore(x: PairEntry, y: PairEntry) {
    x.first < y.first || (x.first == y.first && x.second < y.second)
  }

  /** `valid_pairs.sort(key=..., reverse=True)[0]`: the stable descending sort
      puts first the earliest entry whose key is maximal. */
  function FirstMax(es: seq<PairEntry>): (m: nat)
    requires |es| > 0
    ensures m < |es|
    ensures forall q :: 0 <= q < |es| ==> !KeyLess(es[m], es[q])
    ensures forall q :: 0 <= q < m ==> KeyLess(es[q], es[m])
  {
    if |es| == 1 then 0
    else
      var m := FirstMax(es[..|es| - 1]);
      assert forall q :: 0 <= q < |es| - 1 ==> es[..|es| - 1][q] == es[q];
      if KeyLess(es[m], es[|es| - 1]) then |es| - 1 else m
  }

  /** The pair the search chooses, `None` when fewer than two candidates touch
      a part or no pair qualifies. */
  function BestPair(topo: Topology, parts: seq<Row>, cands: seq<Row>, minShared: real): Option<(nat, nat)>
  {
    var tl := TouchingUpTo(topo, parts, cands, |cands|);
    if |tl| < 2 then None
    else
      var es := ValidPairs(topo, parts, cands, minShared);
      if es == [] then None
      else
        var e := es[FirstMax(es)];
        Some((e.first, e.second))
  }

  // ---------------------------------------------------------------------------
  // What the enumeration contains, and in which order.

  predicate Increasing(tl: seq<nat>) {
    forall q, q' :: 0 <= q < q' < |tl| ==> tl[q] < tl[q']
  }

  predicate Enumerated(es: seq<PairEntry>) {
    forall p, q :: 0 <= p < q < |es| ==> PairBefore(es[p], es[q])
  }

  /** `entry(a, b)` is labelled with `a` and `b`. */
  ghost predicate Labelled(entry: (nat, nat) -> PairEntry) {
    forall a, b :: entry(a, b).first == a && entry(a, b).second == b
  }

  lemma {:induction false} EnumeratedAppend(xs: seq<PairEntry>, ys: seq<PairEntry>)
    requires Enumerated(xs) && Enumerated(ys)
    requires forall x, y :: x in xs && y in ys ==> PairBefore(x, y)
    ensures Enumerated(xs + ys)
  {
    var zs := xs + ys;
    forall p, q | 0 <= p < q < |zs|
      ensures PairBefore(zs[p], zs[q])
    {
      if q < |xs| {
        assert zs[p] == xs[p] && zs[q] == xs[q];
      } else if p >= |xs| {
        assert zs[p] == ys[p - |xs|] && zs[q] == ys[q - |xs|];
      } else {
        assert zs[p] in xs && zs[q] in ys;
      }
    }
  }

  /** Row `i` pairs `tl[i]` with later elements of `tl`, in order. */
  lemma {:induction false} RowPairsShape(tl: seq<nat>, i: nat, m: nat, ok: (nat, nat) -> bool, entry: (nat, nat) -> PairEntry)
    requires Increasing(tl) && Labelled(entry)
    requires i < |tl| && m <= |tl|
    ensures Enumerated(RowPairs(tl, i, m, ok, entry))
    ensures forall e :: e in RowPairs(tl, i, m, ok, entry) <==>
      exists j :: i < j < m && ok(tl[i], tl[j]) && e == entry(tl[i], tl[j])
    ensures forall e :: e in RowPairs(tl, i, m, ok, entry) ==> e.first == tl[i] && m > 0 && e.second <= tl[m - 1]
    decreases m
  {
    if m > i + 1 {
      RowPairsShape(tl, i, m - 1, ok, entry);
      var xs := RowPairs(tl, i, m - 1, ok, entry);
      var ys: seq<PairEntry> := if ok(tl[i], tl[m - 1]) then [entry(tl[i], tl[m - 1])] else [];
      forall x, y | x in xs && y in ys
        ensures PairBefore(x, y)
      {
        assert x.second <= tl[m - 2] < tl[m - 1];
      }
      EnumeratedAppend(xs, ys);
      forall e | e in xs
        ensures e.second <= tl[m - 1]
      {
        assert e.second <= tl[m - 2] < tl[m - 1];
      }
    }
  }

  /** Following the rows, the enumeration is in pair order. */
  lemma {:induction false} AllPairsEnumerated(tl: seq<nat>, n: nat, ok: (nat, nat) -> bool, entry: (nat, nat) -> PairEntry)
    requires Increasing(tl) && Labelled(entry)
    requires n <= |tl|
    ensures Enumerated(AllPairs(tl, n, ok, entry))
    ensures forall e :: e in AllPairs(tl, n, ok, entry) ==> n > 0 && e.first <= tl[n - 1]
    decreases n
  {
    if n > 0 {
      AllPairsEnumerated(tl, n - 1, ok, entry);
      RowPairsShape(tl, n - 1, |tl|, ok, entry);
      var xs := AllPairs(tl, n - 1, ok, entry);
      var ys := RowPairs(tl, n - 1, |tl|, ok, entry);
      forall x, y | x in xs && y in ys
        ensures PairBefore(x, y)
      {
        assert x.first <= tl[n - 2] < tl[n - 1] == y.first;
      }
      EnumeratedAppend(xs, ys);
      forall e | e in xs
        ensures e.first <= tl[n - 1]
      {
        assert e.first <= tl[n - 2] < tl[n - 1];
      }
    }
  }

  /** Entry `e` is that of a passing pair `(tl[i], tl[j])` with `i < n`. */
  predicate Listed(tl: seq<nat>, n: nat, ok: (nat, nat) -> bool, entry: (nat, nat) -> PairEntry, e: PairEntry) {
    exists i, j :: 0 <= i < n && i < j < |tl| && ok(tl[i], tl[j]) && e == entry(tl[i], tl[j])
  }

  /** The enumeration lists exactly the passing pairs of its rows. */
  lemma {:induction false} AllPairsListed(tl: seq<nat>, n: nat, ok: (nat, nat) -> bool, entry: (nat, nat) -> PairEntry)
    requires Increasing(tl) && Labelled(entry)
    requires n <= |tl|
    ensures forall e :: e in AllPairs(tl, n, ok, entry) <==> Listed(tl, n, ok, entry, e)
    decreases n
  {
    if n > 0 {
      AllPairsListed(tl, n - 1, ok, entry);
      RowPairsShape(tl, n - 1, |tl|, ok, entry);
      var xs := AllPairs(tl, n - 1, ok, entry);
      var ys := RowPairs(tl, n - 1, |tl|, ok, entry);
      forall e
        ensures e in xs + ys <==> Listed(tl, n, ok, entry, e)
      {
        if Listed(tl, n, ok, entry, e) {
          var i, j :| 0 <= i < n && i < j < |tl| && ok(tl[i], tl[j]) && e == entry(tl[i], tl[j]);
          if i < n - 1 {
            assert Listed(tl, n - 1, ok, entry, e);
          } else {
            assert e in ys;
          }
        }
        if e in ys {
          var j :| n - 1 < j < |tl| && ok(tl[n - 1], tl[j]) && e == entry(tl[n - 1], tl[j]);
          assert Listed(tl, n, ok, entry, e);
        }
        if e in xs {
          var i, j :| 0 <= i < n - 1 && i < j < |tl| && ok(tl[i], tl[j]) && e == entry(tl[i], tl[j]);
          assert Listed(tl, n, ok, entry, e);
        }
      }
    }
  }

  /** The complete enumeration holds, in pair order, exactly the entries of
      the valid pairs. */
  lemma {:induction false} ValidPairsMembers(topo: Topology, parts: seq<Row>, cands: seq<Row>, minShared: real)
    ensures var es := ValidPairs(topo, parts, cands, minShared);
      Enumerated(es) &&
      (forall e :: e in es ==>
        (ValidPair(topo, parts, cands, minShared, e.first, e.second) &&
         e == Entry(topo, parts, cands, e.first, e.second))) &&
      (forall a, b :: ValidPair(topo, parts, cands, minShared, a, b) ==> Entry(topo, parts, cands, a, b) in es) &&
      (es != [] ==> |TouchingUpTo(topo, parts, cands, |cands|)| >= 2)
  {
    var tl := TouchingUpTo(topo, parts, cands, |cands|);
    var ok, entry := OkFor(topo, parts, cands, minShared), EntryFor(topo, parts, cands);
    AllPairsEnumerated(tl, |tl|, ok, entry);
    AllPairsListed(tl, |tl|, ok, entry);
    var es := AllPairs(tl, |tl|, ok, entry);
    forall a, b | ValidPair(topo, parts, cands, minShared, a, b)
      ensures Entry(topo, parts, cands, a, b) in es
    {
      ValidIsListed(topo, parts, cands, minShared, tl, ok, entry, a, b);
    }
    forall e | e in es
      ensures ValidPair(topo, parts, cands, minShared, e.first, e.second)
      ensures e == Entry(topo, parts, cands, e.first, e.second)
    {
      ListedIsValid(topo, parts, cands, minShared, tl, ok, entry, e);
    }
    if es != [] {
      assert es[0] in es && Listed(tl, |tl|, ok, entry, es[0]);
    }
  }

  lemma {:induction false} ValidIsListed(topo: Topology, parts: seq<Row>, cands: seq<Row>, minShared: real,
                      tl: seq<nat>, ok: (nat, nat) -> bool, entry: (nat, nat) -> PairEntry, a: nat, b: nat)
    requires tl == TouchingUpTo(topo, parts, cands, |cands|)
    requires ok == OkFor(topo, parts, cands, minShared) && entry == EntryFor(topo, parts, cands)
    requires ValidPair(topo, parts, cands, minShared, a, b)
    ensures Listed(tl, |tl|, ok, entry, Entry(topo, parts, cands, a, b))
  {
    assert a in tl && b in tl;
    var i :| 0 <= i < |tl| && tl[i] == a;
    var j :| 0 <= j < |tl| && tl[j] == b;
    assert ok(tl[i], tl[j]) && entry(tl[i], tl[j]) == Entry(topo, parts, cands, a, b);
    assert i < j;
  }

  lemma {:induction false} ListedIsValid(topo: Topology, parts: seq<Row>, cands: seq<Row>, minShared: real,
                      tl: seq<nat>, ok: (nat, nat) -> bool, entry: (nat, nat) -> PairEntry, e: PairEntry)
    requires tl == TouchingUpTo(topo, parts, cands, |cands|)
    requires ok == OkFor(topo, parts, cands, minShared) && entry == EntryFor(topo, parts, cands)
    requires Listed(tl, |tl|, ok, entry, e)
    ensures ValidPair(topo, parts, cands, minShared, e.first, e.second)
    ensures e == Entry(topo, parts, cands, e.first, e.second)
  {
    var i, j :| 0 <= i < |tl| && i < j < |tl| && ok(tl[i], tl[j]) && e == entry(tl[i], tl[j]);
    assert tl[i] in tl && tl[j] in tl;
    assert e == Entry(topo, parts, cands, tl[i], tl[j]);
  }

  /** What the chosen pair is: `None` exactly when no pair is valid (in
      particular when fewer than two candidates touch a part); otherwise a valid
      pair whose key no valid pair exceeds and that every valid pair enumerated
      before it falls short of. */
  lemma {:induction false} BestPairSpec(topo: Topology, parts: seq<Row>, cands: seq<Row>, minShared: real)
    ensures var r := BestPair(topo, parts, cands, minShared);
      (r.None? <==> forall a, b :: !ValidPair(topo, parts, cands, minShared, a, b)) &&
      (r.Some? ==>
        var (a, b) := r.value;
        ValidPair(topo, parts, cands, minShared, a, b) &&
        (forall a', b' :: ValidPair(topo, parts, cands, minShared, a', b') ==>
          !KeyLess(Entry(topo, parts, cands, a, b), Entry(topo, parts, cands, a', b'))) &&
        (forall a', b' ::
          ValidPair(topo, parts, cands, minShared, a', b') &&
          PairBefore(Entry(topo, parts, cands, a', b'), Entry(topo, parts, cands, a, b)) ==>
          KeyLess(Entry(topo, parts, cands, a', b'), Entry(topo, parts, cands, a, b))))
  {
    var tl := TouchingUpTo(topo, parts, cands, |cands|);
    ValidPairsMembers(topo, parts, cands, minShared);
    var es := ValidPairs(topo, parts, cands, minShared);
    if |tl| >= 2 && es != [] {
      var m := FirstMax(es);
      var e := es[m];
      assert e in es;
      forall a', b' | ValidPair(topo, parts, cands, minShared, a', b') &&
        PairBefore(Entry(topo, parts, cands, a', b'), e)
        ensures KeyLess(Entry(topo, parts, cands, a', b'), e)
      {
        var x := Entry(topo, parts, cands, a', b');
        assert x in es;
        var q :| 0 <= q < |es| && es[q] == x;
        EarlierFallsShort(es, q);
      }
      forall a', b' | ValidPair(topo, parts, cands, minShared, a', b')
        ensures !KeyLess(e, Entry(topo, parts, cands, a', b'))
      {
        var x := Entry(topo, parts, cands, a', b');
        assert x in es;
      }
    }
  }

  /** An entry enumerated before the first maximum has a smaller key. */
  lemma {:induction false} EarlierFallsShort(es: seq<PairEntry>, q: nat)
    requires Enumerated(es) && q < |es| && PairBefore(es[q], es[FirstMax(es)])
    ensures KeyLess(es[q], es[FirstMax(es)])
  {
  }

  /** The first maximum of the entries (the selection loop of lines 358-360). */
  method SelectBest(valid: seq<PairEntry>) returns (m: nat)
    requires |valid| > 0
    ensures m == FirstMax(valid)
  {
    m := 0;
    var q := 1;
    while q < |valid|
      invariant 1 <= q <= |valid|
      invariant m == FirstMax(valid[..q])
    {
      assert valid[..q + 1][..q] == valid[..q];
      if KeyLess(valid[m], valid[q]) {
        m := q;
      }
      q := q + 1;
    }
    assert valid[..|valid|] == valid;
  }

  /** One of the sums of lines 338-349. */
  method SumShared(topo: Topology, parts: seq<Row>, cand: Row, touching: set<nat>) returns (total: real)
    ensures total == SetShared(topo, parts, cand, touching, |parts|)
  {
    total := 0.0;
    var p := 0;
    while p < |parts|
      invariant 0 <= p <= |parts|
      invariant total == SetShared(topo, parts, cand, touching, p)
    {
      if p in touching {
        total := total + topo.sharedLen(cand.geom, parts[p].geom);
      }
      p := p + 1;
    }
  }

  /** The early-exit scan of lines 285-289. */
  method TouchesSomePart(topo: Topology, parts: seq<Row>, cand: Row) returns (touchesAny: bool)
    ensures touchesAny == TouchesAny(topo, parts, cand)
  {
    touchesAny := false;
    var p := 0;
    while p < |parts|
      invariant 0 <= p <= |parts|
      invariant touchesAny ==> TouchesAny(topo, parts, cand)
      invariant !touchesAny ==> forall q :: 0 <= q < p ==> !topo.touches(cand.geom, parts[q].geom)
    {
      if topo.touches(cand.geom, parts[p].geom) {
        touchesAny := true;
        break;
      }
      p := p + 1;
    }
  }

  /** The collection of touched parts, lines 292-296. */
  method TouchedParts(topo: Topology, parts: seq<Row>, cand: Row) returns (touching: set<nat>)
    ensures touching == TouchSet(topo, parts, cand)
    ensures forall p: nat :: p in touching <==> p < |parts| && topo.touches(cand.geom, parts[p].geom)
  {
    touching := {};
    var p := 0;
    while p < |parts|
      invariant 0 <= p <= |parts|
      invariant forall q: nat :: q in touching <==> q < p && topo.touches(cand.geom, parts[q].geom)
    {
      if topo.touches(cand.geom, parts[p].geom) {
        touching := touching + {p};
      }
      p := p + 1;
    }
  }

  /** Lines 280-298: the candidates touching at least one part, each with the
      set of parts it touches. */
  method TouchingCandidates(topo: Topology, parts: seq<Row>, cands: seq<Row>) returns (tl: seq<nat>, sets: seq<set<nat>>)
    ensures tl == TouchingUpTo(topo, parts, cands, |cands|)
    ensures |sets| == |tl| && forall q :: 0 <= q < |tl| ==> sets[q] == TouchSet(topo, parts, cands[tl[q]])
  {
    tl, sets := [], [];
    var k := 0;
    while k < |cands|
      invariant 0 <= k <= |cands|
      invariant TouchScan(topo, parts, cands, k, tl, sets)
    {
      var cand := cands[k];
      TouchScanStep(topo, parts, cands, k, tl, sets);
      var touchesAny := TouchesSomePart(topo, parts, cand);
      if touchesAny {
        var touching := TouchedParts(topo, parts, cand);
        tl := tl + [k];
        sets := sets + [touching];
      }
      k := k + 1;
    }
  }

  /** The loop of lines 284-298 after the first `k` candidates. */
  predicate TouchScan(topo: Topology, parts: seq<Row>, cands: seq<Row>, k: nat, tl: seq<nat>, sets: seq<set<nat>>)
    requires k <= |cands|
  {
    tl == TouchingUpTo(topo, parts, cands, k) &&
    |sets| == |tl| && forall q :: 0 <= q < |tl| ==> sets[q] == TouchSet(topo, parts, cands[tl[q]])
  }

  lemma {:induction false} TouchScanStep(topo: Topology, parts: seq<Row>, cands: seq<Row>, k: nat, tl: seq<nat>, sets: seq<set<nat>>)
    requires k < |cands| && TouchScan(topo, parts, cands, k, tl, sets)
    ensures TouchesAny(topo, parts, cands[k]) ==>
      TouchScan(topo, parts, cands, k + 1, tl + [k], sets + [TouchSet(topo, parts, cands[k])])
    ensures !TouchesAny(topo, parts, cands[k]) ==> TouchScan(topo, parts, cands, k + 1, tl, sets)
  {
  }

  /** Lines 304-351: the qualifying pairs of touching candidates, with their
      ranking keys, in enumeration order. */
  method CollectPairs(topo: Topology, parts: seq<Row>, cands: seq<Row>, minShared: real, tl: seq<nat>, sets: seq<set<nat>>)
    returns (valid: seq<PairEntry>)
    requires forall q :: 0 <= q < |tl| ==> tl[q] < |cands|
    requires |sets| == |tl| && forall q :: 0 <= q < |tl| ==> sets[q] == TouchSet(topo, parts, cands[tl[q]])
    ensures valid == AllPairs(tl, |tl|, OkFor(topo, parts, cands, minShared), EntryFor(topo, parts, cands))
  {
    ghost var ok, entry := OkFor(topo, parts, cands, minShared), EntryFor(topo, parts, cands);
    var allParts := AllParts(|parts|);
    valid := [];
    var i := 0;
    while i < |tl|
      invariant 0 <= i <= |tl|
      invariant valid == AllPairs(tl, i, ok, entry)
    {
      var row := CollectRow(topo, parts, cands, minShared, tl, sets, allParts, i, ok, entry);
      valid := valid + row;
      i := i + 1;
    }
  }

  /** The inner loop of lines 314-351, for `tl[i]` and the candidates after it. */
  method CollectRow(topo: Topology, parts: seq<Row>, cands: seq<Row>, minShared: real, tl: seq<nat>, sets: seq<set<nat>>,
                    allParts: set<nat>, i: nat, ghost ok: (nat, nat) -> bool, ghost entry: (nat, nat) -> PairEntry)
    returns (row: seq<PairEntry>)
    requires forall q :: 0 <= q < |tl| ==> tl[q] < |cands|
    requires |sets| == |tl| && forall q :: 0 <= q < |tl| ==> sets[q] == TouchSet(topo, parts, cands[tl[q]])
    requires allParts == AllParts(|parts|) && i < |tl|
    requires ok == OkFor(topo, parts, cands, minShared) && entry == EntryFor(topo, parts, cands)
    ensures row == RowPairs(tl, i, |tl|, ok, entry)
  {
    row := [];
    var j := i + 1;
    while j < |tl|
      invariant i + 1 <= j <= |tl|
      invariant row == RowPairs(tl, i, j, ok, entry)
    {
      var add := PairStep(topo, parts, cands, minShared, tl[i], tl[j], sets[i], sets[j], allParts, ok, entry);
      row := row + add;
      j := j + 1;
    }
  }

  /** Lines 317-351 for one pair: its entry, when the two candidates qualify. */
  method PairStep(topo: Topology, parts: seq<Row>, cands: seq<Row>, minShared: real,
                  a: nat, b: nat, set1: set<nat>, set2: set<nat>, allParts: set<nat>,
                  ghost ok: (nat, nat) -> bool, ghost entry: (nat, nat) -> PairEntry) returns (add: seq<PairEntry>)
    requires a < |cands| && b < |cands|
    requires set1 == TouchSet(topo, parts, cands[a]) && set2 == TouchSet(topo, parts, cands[b])
    requires allParts == AllParts(|parts|)
    requires ok == OkFor(topo, parts, cands, minShared) && entry == EntryFor(topo, parts, cands)
    ensures add == if ok(a, b) then [entry(a, b)] else []
  {
    var c1, c2 := cands[a], cands[b];
    add := [];
    if topo.touches(c1.geom, c2.geom) {
      var sharedLen := topo.sharedLen(c1.geom, c2.geom);
      if sharedLen >= minShared && set1 + set2 == allParts {
        var t1 := SumShared(topo, parts, c1, set1);
        var t2 := SumShared(topo, parts, c2, set2);
        add := [PairEntry(a, b, t1 + t2, sharedLen)];
      }
    }
  }

  /** Lines 280-360: the search that precedes the merge. */
  method FindBestPair(topo: Topology, parts: seq<Row>, cands: seq<Row>, minShared: real) returns (r: Option<(nat, nat)>)
    ensures r == BestPair(topo, parts, cands, minShared)
  {
    var tl, sets := TouchingCandidates(topo, parts, cands);
    if |tl| < 2 {
      return None;
    }
    var valid := CollectPairs(topo, parts, cands, minShared, tl, sets);
    if valid == [] {
      return None;
    }
    var m := SelectBest(valid);
    r := Some((valid[m].first, valid[m].second));
  }

  /** Cells 0 and 1 are the parts; candidate 10 touches part 0, candidate 11
      touches part 1, and the two candidates share a boundary of length 8. */
  function Bridge(): Topology {
    Topology(
      (a: Geom, b: Geom) => (10 in a && 0 in b) || (11 in a && 1 in b) || (10 in a && 11 in b),
      (a: Geom, b: Geom) => 8.0)
  }

  /** Two parts, each touching its own outside polygon, with the two outside
      polygons adjacent along 8 >= 5: the search picks exactly that pair. */
  lemma {:induction false} BridgePairChosen()
    ensures BestPair(Bridge(), [Piece(0), Piece(1)], [Piece(10), Piece(11)], 5.0) == Some((0, 1))
  {
    var topo, parts, cands := Bridge(), [Piece(0), Piece(1)], [Piece(10), Piece(11)];
    assert TouchSet(topo, parts, cands[0]) == {0};
    assert TouchSet(topo, parts, cands[1]) == {1};
    assert AllParts(2) == {0, 1};
    assert TouchesAny(topo, parts, cands[0]) by { assert topo.touches(cands[0].geom, parts[0].geom); }
    assert TouchesAny(topo, parts, cands[1]) by { assert topo.touches(cands[1].geom, parts[1].geom); }
    assert ValidPair(topo, parts, cands, 5.0, 0, 1);
    BestPairSpec(topo, parts, cands, 5.0);
  }
}
