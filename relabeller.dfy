/** The processor object (`MultipartPolygonRelabeller`): it holds the block
    frame `data`, the id width and the column lists, and remembers every id it
    has generated for merged polygons. Each method is proved to compute the
    specification function of its module. */
module MultipartRelabeller {
  import opened Wrappers
  import opened Text
  import opened Records
  import opened PlainRelabel
  import opened Contiguity
  import opened SingleSearch
  import opened PairSearch
  import opened Merge
  import opened Identifiers
  import opened Resolution

  /** Line 35: the count columns that are not numeric columns. */
  function MissingCounts(numCols: seq<string>, countCols: seq<string>): (m: set<string>)
    ensures forall c :: c in m <==> c in countCols && c !in numCols
    ensures m == {} <==> forall c :: c in countCols ==> c in numCols
  {
    set c | c in countCols && c !in numCols
  }

  /** Lines 266-376 as a relation: `None` exactly when no pair qualifies;
      otherwise the best pair `a < b` of neighbours and the merge of the
      group with both under `newId`. */
  predicate PairMerged(topo: Topology, parts: seq<Row>, nondup: seq<Row>, cols: Columns, minShared: real,
                       newId: string, r: Option<(Row, seq<nat>)>)
    requires |parts| > 0 && HasColumns(cols, parts[0])
    requires forall j :: 0 <= j < |nondup| ==> HasColumns(cols, nondup[j])
  {
    match r
    case None => BestPair(topo, parts, nondup, minShared).None?
    case Some((row, used)) =>
      |used| == 2 && used[0] < used[1] < |nondup| && used == [used[0], used[1]] &&
      BestPair(topo, parts, nondup, minShared) == Some((used[0], used[1])) &&
      (PairMergeable(parts, nondup[used[0]], nondup[used[1]], cols);
       row == MergeRow(parts, [nondup[used[0]], nondup[used[1]]], cols, newId))
  }

  /** A map that agrees with the summed counts on exactly the count columns is
      the summed counts. */
  lemma {:induction false} SameCounts(m: map<string, real>, countCols: seq<string>, base: Row, targets: seq<Row>)
    requires forall c :: c in countCols ==> c in base.attrs && AllHave(targets, c)
    requires m.Keys == set c | c in countCols
    requires forall c :: c in countCols ==> m[c] == base.attrs[c] + SumCol(targets, c)
    ensures m == map c | c in countCols :: base.attrs[c] + SumCol(targets, c)
  {
  }

  /** Lines 391-393: the union of the parts, grown by each target in turn. */
  method UnionTargets(parts: seq<Row>, targets: seq<Row>) returns (g: Geom)
    ensures g == UnionAll(parts) + UnionAll(targets)
  {
    g := UnionAll(parts);
    var k := 0;
    while k < |targets|
      invariant 0 <= k <= |targets|
      invariant g == UnionAll(parts) + UnionAll(targets[..k])
    {
      assert targets[..k + 1][..k] == targets[..k];
      g := g + targets[k].geom;
      k := k + 1;
    }
    assert targets[..k] == targets;
  }

  /** Lines 396-398: the first part's counts, with each target's counts added
      in turn. */
  method SumCounts(base: Row, targets: seq<Row>, cols: Columns) returns (m: map<string, real>)
    requires forall c :: c in cols.countCols ==> c in base.attrs && AllHave(targets, c)
    ensures m == SummedCounts(base, targets, cols)
  {
    var countCols := cols.countCols;
    m := map c | c in countCols :: base.attrs[c];
    var k := 0;
    while k < |targets|
      invariant 0 <= k <= |targets|
      invariant m.Keys == set c | c in countCols
      invariant forall c :: c in countCols ==> m[c] == base.attrs[c] + SumCol(targets[..k], c)
    {
      assert targets[..k + 1][..k] == targets[..k];
      m := map c | c in countCols :: m[c] + targets[k].attrs[c];
      k := k + 1;
    }
    assert targets[..k] == targets;
    SameCounts(m, countCols, base, targets);
  }

  class Relabeller {
    var data: seq<Row>
    const idLength: nat
    const numCols: seq<string>
    const countCols: seq<string>
    var generatedIds: set<string>

    /** Lines 28-33, for column lists that pass the check of lines 35-37. */
    constructor(input: seq<Row>, idLength: nat, numCols: seq<string>, countCols: seq<string>)
      requires MissingCounts(numCols, countCols) == {}
      ensures data == input && this.idLength == idLength
      ensures this.numCols == numCols && this.countCols == countCols
      ensures generatedIds == {}
    {
      data := input;
      this.idLength := idLength;
      this.numCols := numCols;
      this.countCols := countCols;
      generatedIds := {};
    }

    /** Lines 20-37: construction fails with the missing columns exactly when
        some count column is not a numeric column. */
    static method Create(input: seq<Row>, idLength: nat, numCols: seq<string>, countCols: seq<string>)
      returns (r: Result<Relabeller, set<string>>)
      ensures r.Failure? <==> exists c :: c in countCols && c !in numCols
      ensures r.Failure? ==> r.error == MissingCounts(numCols, countCols)
      ensures r.Success? ==>
        fresh(r.value) && r.value.data == input && r.value.idLength == idLength &&
        r.value.numCols == numCols && r.value.countCols == countCols && r.value.generatedIds == {}
    {
      var missing := MissingCounts(numCols, countCols);
      if missing != {} {
        return Failure(missing);
      }
      var p := new Relabeller(input, idLength, numCols, countCols);
      return Success(p);
    }

    /** `set(self.data[poly_id])`. */
    function ExistingIds(): (s: set<string>)
      reads this`data
      ensures forall x :: x in s <==> exists i :: 0 <= i < |data| && data[i].id == x
    {
      set i | 0 <= i < |data| :: data[i].id
    }

    /** Line 89: the ids in the frame and the ids generated so far. */
    function UsedIds(): (s: set<string>)
      reads this
      ensures forall x :: x in s <==> x in ExistingIds() || x in generatedIds
    {
      ExistingIds() + generatedIds
    }

    /** Lines 40-82: the parts of every duplicated block id get a two-digit
        sequence suffix, the blocks that were not split keep their id, and
        every id is padded to `idLength`. */
    method RelabelMultipartBlocks() returns (out: seq<Row>)
      requires NumericIds(data)
      modifies this`data
      ensures data == Relabel(old(data), idLength) && out == data
    {
      var all := Normalize(data);
      var dup := Select(all, all, true);
      var single := Select(all, all, false);
      var numbered := Numbered(dup);
      var kept := RemoveIds(single, StrippedIds(numbered));
      data := PadIds(kept + numbered, idLength);
      out := data;
    }

    /** Lines 84-98: a new id for the merge of group `origId`, recorded among
        the generated ids. */
    method GenerateNewId(origId: string) returns (newId: string)
      requires Parsable(DropLast2(origId), UsedIds())
      modifies this`generatedIds
      ensures newId == NewId(origId, old(UsedIds()))
      ensures generatedIds == old(generatedIds) + {newId}
      ensures StartsWith(newId, DropLast2(origId)) && SuffixParses(newId)
      ensures MaxSuffix(DropLast2(origId), old(UsedIds())) + 1 < 1000 ==>
        newId !in old(UsedIds()) && Suffix(newId) == MaxSuffix(DropLast2(origId), old(UsedIds())) + 1
    {
      var base := DropLast2(origId);
      var used := ExistingIds() + generatedIds;
      var next := NextSuffix(base, used);
      newId := Compose(base, next);
      generatedIds := generatedIds + {newId};
      if next < 1000 {
        NewIdFresh(origId, used);
      }
    }

    /** Lines 379-437: the merged row, with a freshly generated id. */
    method MergePartsAndTargets(parts: seq<Row>, targets: seq<Row>, origId: string, popCol: string)
      returns (row: Row)
      requires Mergeable(parts, targets, Columns(numCols, countCols, popCol))
      requires Parsable(DropLast2(origId), UsedIds())
      modifies this`generatedIds
      ensures row == MergeRow(parts, targets, Columns(numCols, countCols, popCol), NewId(origId, old(UsedIds())))
      ensures generatedIds == old(generatedIds) + {row.id}
    {
      var cols := Columns(numCols, countCols, popCol);
      var base := parts[0];
      var newGeom := UnionTargets(parts, targets);
      var countsSum := SumCounts(base, targets, cols);
      var avgs := AveragedCols(base, targets, cols);
      var newId := GenerateNewId(origId);
      row := targets[0].(geom := newGeom,
                         attrs := targets[0].attrs + countsSum + avgs,
                         wasMultipart := 1,
                         combAdj := Some(|targets|),
                         origId := MergedOrigId(base, targets),
                         id := newId);
    }

    /** Lines 266-376: the best pair of neighbours that together touch every
        part, merged with the group; `None` when no pair qualifies. */
    method MergeRemainingWithTwoTargets(topo: Topology, parts: seq<Row>, nondup: seq<Row>, origId: string,
                                        popCol: string, minShared: real)
      returns (r: Option<(Row, seq<nat>)>)
      requires |parts| > 0 && HasColumns(Columns(numCols, countCols, popCol), parts[0])
      requires forall j :: 0 <= j < |nondup| ==> HasColumns(Columns(numCols, countCols, popCol), nondup[j])
      requires Parsable(DropLast2(origId), UsedIds())
      modifies this`generatedIds
      ensures PairMerged(topo, parts, nondup, Columns(numCols, countCols, popCol), minShared,
                         NewId(origId, old(UsedIds())), r)
      ensures r.None? ==> generatedIds == old(generatedIds)
      ensures r.Some? ==> generatedIds == old(generatedIds) + {r.value.0.id}
    {
      var best := FindBestPair(topo, parts, nondup, minShared);
      if best.None? {
        return None;
      }
      BestPairInRange(topo, parts, nondup, minShared);
      var (a, b) := best.value;
      var row := MergePartsAndTargets(parts, [nondup[a], nondup[b]], origId, popCol);
      r := Some((row, [a, b]));
    }

    /** The engine's view of this processor and of the arguments of
        `_resolve_multipart_by_contiguity`. */
    function EnvFor(topo: Topology, dup: seq<Row>, nondup: seq<Row>, popCol: string, minShared: real): Env
      reads this`data
    {
      Env(topo, dup, nondup, Columns(numCols, countCols, popCol), minShared, ExistingIds())
    }

    /** Lines 172-226, one group: the first tier that succeeds, the row it
        resolves into and the non-duplicated positions it absorbs. */
    method ResolveGroup(env: Env, key: string) returns (r: Option<(Row, seq<nat>)>)
      requires env.existing == ExistingIds() && env.cols.numCols == numCols && env.cols.countCols == countCols
      requires EnvOk(env) && KeyOk(env, key) && GenParses(generatedIds)
      modifies this`generatedIds
      ensures GroupResult(env, key, old(generatedIds), r, generatedIds)
    {
      var parts := Parts(env.dup, key);
      PartsOfKey(env, key);
      var contiguous := AreContiguous(env.topo, parts, env.minShared);
      if contiguous {
        var row := parts[0].(geom := UnionAll(parts), id := key, wasMultipart := 1, combAdj := Some(0));
        DirectGroup(env, key, generatedIds, row);
        return Some((row, []));
      }
      var candidate := FindBestAdjacent(env.topo, parts, env.nondup, env.minShared);
      if candidate.Some? {
        r := AbsorbSingle(env, key, parts, candidate.value);
      } else {
        r := AbsorbPair(env, key, parts);
      }
    }

    /** Lines 187-208: the group absorbs its best single neighbour `c`. */
    method AbsorbSingle(env: Env, key: string, parts: seq<Row>, c: nat) returns (r: Option<(Row, seq<nat>)>)
      requires env.existing == ExistingIds() && env.cols.numCols == numCols && env.cols.countCols == countCols
      requires EnvOk(env) && KeyOk(env, key) && GenParses(generatedIds) && parts == Parts(env.dup, key)
      requires !WeaklyContiguous(env.topo, parts, env.minShared)
      requires BestSingle(env.topo, parts, env.nondup, env.minShared) == Some(c) && c < |env.nondup|
      modifies this`generatedIds
      ensures GroupResult(env, key, old(generatedIds), r, generatedIds)
    {
      PartsOfKey(env, key);
      assert Columns(numCols, countCols, env.cols.popCol) == env.cols;
      ghost var gen := generatedIds;
      var row := MergePartsAndTargets(parts, [env.nondup[c]], key, env.cols.popCol);
      SingleGroup(env, key, gen, c, row);
      r := Some((row, [c]));
    }

    /** Lines 212-227: the group absorbs the best pair of neighbours, or stays
        unresolved. */
    method AbsorbPair(env: Env, key: string, parts: seq<Row>) returns (r: Option<(Row, seq<nat>)>)
      requires env.existing == ExistingIds() && env.cols.numCols == numCols && env.cols.countCols == countCols
      requires EnvOk(env) && KeyOk(env, key) && GenParses(generatedIds) && parts == Parts(env.dup, key)
      requires !WeaklyContiguous(env.topo, parts, env.minShared)
      requires BestSingle(env.topo, parts, env.nondup, env.minShared).None?
      modifies this`generatedIds
      ensures GroupResult(env, key, old(generatedIds), r, generatedIds)
    {
      PartsOfKey(env, key);
      assert Columns(numCols, countCols, env.cols.popCol) == env.cols;
      ghost var gen := generatedIds;
      assert UsedIds() == env.existing + gen;
      r := MergeRemainingWithTwoTargets(env.topo, parts, env.nondup, key, env.cols.popCol, env.minShared);
      if r.Some? {
        var a, b := r.value.1[0], r.value.1[1];
        PairMergeable(parts, env.nondup[a], env.nondup[b], env.cols);
        PairGroup(env, key, gen, a, b, r.value.0);
      } else {
        UnresolvedGroup(env, key, gen);
      }
    }

    /** Lines 159-263: every group of `dup_gdf` in key order goes through
        the three tiers; the result is the rows of `non_dup_gdf` no group
        absorbed followed by the resolved rows, with ids cut or padded to 15
        characters, and the parts of the groups left unresolved. */
    method ResolveMultipartByContiguity(topo: Topology, dup: seq<Row>, nondup: seq<Row>, popCol: string, minShared: real)
      returns (resolved: seq<Row>, remaining: seq<Row>)
      requires EnvOk(EnvFor(topo, dup, nondup, popCol, minShared))
      requires AllKeysOk(EnvFor(topo, dup, nondup, popCol, minShared), GroupKeys(dup))
      requires GenParses(generatedIds)
      modifies this`generatedIds
      ensures (resolved, remaining) == Outcome(EnvFor(topo, dup, nondup, popCol, minShared), old(generatedIds))
      ensures generatedIds == Final(EnvFor(topo, dup, nondup, popCol, minShared), old(generatedIds)).generated
    {
      var env := EnvFor(topo, dup, nondup, popCol, minShared);
      var keys := GroupKeys(dup);
      var rows: seq<Row> := [];
      var consumedDup: seq<nat> := [];
      var consumedNondup: seq<nat> := [];
      ghost var steps: seq<Resolved> := [];
      ghost var st0 := State([], [], [], generatedIds);
      var i := 0;
      while i < |keys|
        invariant 0 <= i <= |keys| && env.existing == ExistingIds()
        invariant AllKeysParse(env, keys[..i]) && GenParses(generatedIds)
        invariant State(steps, consumedDup, consumedNondup, generatedIds) == Run(env, Decisions(env), keys[..i], st0)
        invariant StepsOk(env, steps) && rows == RowsOf(env, steps)
      {
        var key := keys[i];
        RunSnoc(env, Decisions(env), keys, i, st0);
        ghost var st := State(steps, consumedDup, consumedNondup, generatedIds);
        var r := ResolveGroup(env, key);
        StepOfResult(env, key, st, r, generatedIds);
        if r.Some? {
          ghost var s := Resolved(key, Decide(env, key), r.value.0.id);
          RowsOfAppend(env, steps, s);
          steps := steps + [s];
          rows := rows + [r.value.0];
          consumedDup := consumedDup + PartIdx(dup, key, |dup|);
          consumedNondup := consumedNondup + r.value.1;
        }
        i := i + 1;
      }
      assert keys[..i] == keys;
      remaining := Keep(dup, consumedDup, |dup|);
      resolved := FixIds(Keep(nondup, consumedNondup, |nondup|) + rows);
    }
  }
}
