/** The specification of the resolution engine (`_resolve_multipart_by_contiguity`,
    lines 159-263): the groups of split parts are visited in ascending order of
    their original id, each one is decided by the first tier that succeeds, and
    the resolved rows, the consumed rows and the generated ids accumulate in a
    `State` along the way. `Relabeller.ResolveMultipartByContiguity` is proved
    to compute `Outcome`. */
module Resolution {
  import opened Wrappers
  import opened Text
  import opened Records
  import opened Contiguity
  import opened SingleSearch
  import opened PairSearch
  import opened Merge
  import opened Identifiers

  // ---------------------------------------------------------------------------
  // Grouping by original id

  predicate StrictlySorted(ks: seq<string>) {
    forall p, q :: 0 <= p < q < |ks| ==> LexLess(ks[p], ks[q])
  }

  lemma {:induction false} BelowHead(ks: seq<string>, k: string)
    requires StrictlySorted(ks) && ks != [] && LexLess(k, ks[0])
    ensures StrictlySorted([k] + ks)
  {
    var r := [k] + ks;
    forall p, q | 0 <= p < q < |r|
      ensures LexLess(r[p], r[q])
    {
      if p == 0 && q > 1 {
        LexLessTransitive(k, ks[0], ks[q - 1]);
      }
    }
  }

  lemma {:induction false} AboveHead(ks: seq<string>, k: string, rest: seq<string>)
    requires StrictlySorted(ks) && ks != [] && LexLess(ks[0], k)
    requires StrictlySorted(rest) && forall x :: x in rest <==> x in ks[1..] || x == k
    ensures StrictlySorted([ks[0]] + rest)
  {
    var r := [ks[0]] + rest;
    forall p, q | 0 <= p < q < |r|
      ensures LexLess(r[p], r[q])
    {
      if p == 0 {
        assert rest[q - 1] in rest;
        if rest[q - 1] != k {
          var m :| 0 <= m < |ks[1..]| && ks[1..][m] == rest[q - 1];
          assert ks[m + 1] == rest[q - 1];
        }
      }
    }
  }

  /** `ks` with `k` inserted at its place in the order, unless already there. */
  function Insert(ks: seq<string>, k: string): (r: seq<string>)
    requires StrictlySorted(ks)
    ensures StrictlySorted(r)
    ensures forall x :: x in r <==> x in ks || x == k
    decreases |ks|
  {
    if ks == [] then [k]
    else if k == ks[0] then ks
    else if LexLess(k, ks[0]) then
      BelowHead(ks, k);
      [k] + ks
    else
      LexLessTotal(k, ks[0]);
      var rest := Insert(ks[1..], k);
      assert forall x :: x in ks <==> x == ks[0] || x in ks[1..];
      AboveHead(ks, k, rest);
      [ks[0]] + rest
  }

  /** The keys `groupby(orig_id)` visits: every original id of `rows` once, in
      ascending string order. */
  function GroupKeys(rows: seq<Row>): (ks: seq<string>)
    ensures StrictlySorted(ks)
    ensures forall k :: k in ks <==> exists i :: 0 <= i < |rows| && rows[i].origId == k
  {
    if rows == [] then []
    else
      var init := rows[..|rows| - 1];
      assert forall i :: 0 <= i < |init| ==> init[i] == rows[i];
      Insert(GroupKeys(init), rows[|rows| - 1].origId)
  }

  /** The positions, among the first `n` rows, of the rows with original id
      `key`, in row order (`parts.index`). */
  function PartIdx(rows: seq<Row>, key: string, n: nat): (idx: seq<nat>)
    requires n <= |rows|
    ensures forall k :: 0 <= k < |idx| ==> idx[k] < n && rows[idx[k]].origId == key
    ensures forall i: nat :: i in idx <==> i < n && rows[i].origId == key
  {
    if n == 0 then []
    else PartIdx(rows, key, n - 1) + (if rows[n - 1].origId == key then [n - 1] else [])
  }

  /** The group of `key`. */
  function Parts(rows: seq<Row>, key: string): seq<Row> {
    Gather(rows, PartIdx(rows, key, |rows|))
  }

  // ---------------------------------------------------------------------------
  // One group

  /** What happens to a group: direct union, merge with one neighbour, merge
      with a pair of neighbours, or nothing. */
  datatype Tier = Direct | Single(c: nat) | Pair(a: nat, b: nat) | Unresolved

  /** The non-duplicated rows a tier absorbs. */
  function TargetIdx(t: Tier): seq<nat> {
    match t
    case Single(c) => [c]
    case Pair(a, b) => [a, b]
    case _ => []
  }

  /** What the engine reads: the geometric oracle, `dup_gdf`, `non_dup_gdf`, the
      columns, `min_shared_len` and the ids of the relabelled frame. */
  datatype Env = Env(topo: Topology, dup: seq<Row>, nondup: seq<Row>, cols: Columns, minShared: real, existing: set<string>)

  /** Lines 173-229: the first tier that succeeds. The candidate pool is the
      whole of `non_dup_gdf` for every group, whatever earlier groups absorbed. */
  function Decide(env: Env, key: string): (t: Tier)
    ensures TierInRange(env, t)
  {
    var parts := Parts(env.dup, key);
    if WeaklyContiguous(env.topo, parts, env.minShared) then Direct
    else match BestSingle(env.topo, parts, env.nondup, env.minShared)
      case Some(c) => Single(c)
      case None =>
        BestPairInRange(env.topo, parts, env.nondup, env.minShared);
        match BestPair(env.topo, parts, env.nondup, env.minShared)
        case Some((a, b)) => Pair(a, b)
        case None => Unresolved
  }

  lemma {:induction false} BestPairInRange(topo: Topology, parts: seq<Row>, cands: seq<Row>, minShared: real)
    ensures BestPair(topo, parts, cands, minShared).Some? ==>
      BestPair(topo, parts, cands, minShared).value.0 < BestPair(topo, parts, cands, minShared).value.1 < |cands|
  {
    BestPairSpec(topo, parts, cands, minShared);
  }

  /** The decision of every group. */
  function Decisions(env: Env): string -> Tier {
    k => Decide(env, k)
  }

  predicate TierInRange(env: Env, t: Tier) {
    forall k :: 0 <= k < |TargetIdx(t)| ==> TargetIdx(t)[k] < |env.nondup|
  }

  /** The loop results below are stated for any decision function whose
      targets exist; the engine uses `Decisions(env)`. */
  ghost predicate InRange(env: Env, tiers: string -> Tier) {
    forall k :: TierInRange(env, tiers(k))
  }

  lemma {:induction false} DecisionsInRange(env: Env)
    ensures InRange(env, Decisions(env))
  {
  }

  function Targets(env: Env, t: Tier): seq<Row>
    requires TierInRange(env, t)
  {
    Gather(env.nondup, TargetIdx(t))
  }

  /** Lines 175-179: the first part, carrying the union of the group and the
      original id. */
  function DirectRow(parts: seq<Row>, key: string): Row
    requires |parts| > 0
  {
    parts[0].(geom := UnionAll(parts), id := key, wasMultipart := 1, combAdj := Some(0))
  }

  /** Every row carries the columns the merge reads. */
  predicate EnvOk(env: Env) {
    (forall i :: 0 <= i < |env.dup| ==> HasColumns(env.cols, env.dup[i])) &&
    forall j :: 0 <= j < |env.nondup| ==> HasColumns(env.cols, env.nondup[j])
  }

  /** `key` is the original id of some row, and `int(x[-3:])` succeeds on the
      frame's ids that start with its prefix. */
  predicate KeyOk(env: Env, key: string) {
    (exists i :: 0 <= i < |env.dup| && env.dup[i].origId == key) &&
    Parsable(DropLast2(key), env.existing)
  }

  predicate AllKeysOk(env: Env, keys: seq<string>) {
    forall k :: k in keys ==> KeyOk(env, k)
  }

  /** What the id allocator needs of a key. */
  predicate KeyParses(env: Env, key: string) {
    Parsable(DropLast2(key), env.existing)
  }

  predicate AllKeysParse(env: Env, keys: seq<string>) {
    forall k :: k in keys ==> KeyParses(env, k)
  }

  /** Every generated id has a numeric suffix. */
  predicate GenParses(gen: set<string>) {
    forall x :: x in gen ==> SuffixParses(x)
  }

  lemma {:induction false} PartsOfKey(env: Env, key: string)
    requires EnvOk(env) && KeyOk(env, key)
    ensures |Parts(env.dup, key)| > 0 && HasColumns(env.cols, Parts(env.dup, key)[0])
    ensures forall p :: 0 <= p < |Parts(env.dup, key)| ==> Parts(env.dup, key)[p].origId == key
  {
    var i :| 0 <= i < |env.dup| && env.dup[i].origId == key;
    assert i in PartIdx(env.dup, key, |env.dup|);
  }

  /** A resolved group: its key, its tier and the id its row gets. */
  datatype Resolved = Resolved(key: string, tier: Tier, id: string)

  predicate StepOk(env: Env, s: Resolved) {
    KeyOk(env, s.key) && TierInRange(env, s.tier) && !s.tier.Unresolved?
  }

  predicate StepsOk(env: Env, steps: seq<Resolved>) {
    forall k :: 0 <= k < |steps| ==> StepOk(env, steps[k])
  }

  /** Lines 175-179 and 193-200, 217-224: the row a resolved group appends to
      `resolved_rows`. */
  function RowOf(env: Env, s: Resolved): Row
    requires EnvOk(env) && StepOk(env, s)
  {
    PartsOfKey(env, s.key);
    var parts := Parts(env.dup, s.key);
    if s.tier.Direct? then DirectRow(parts, s.key)
    else
      MergeInputs(env, s.tier, s.key, parts, Targets(env, s.tier));
      MergeRow(parts, Targets(env, s.tier), env.cols, s.id)
  }

  lemma {:induction false} MergeInputs(env: Env, t: Tier, key: string, parts: seq<Row>, ts: seq<Row>)
    requires EnvOk(env) && KeyOk(env, key) && TierInRange(env, t)
    requires t.Single? || t.Pair?
    requires parts == Parts(env.dup, key) && ts == Targets(env, t)
    ensures Mergeable(parts, ts, env.cols)
  {
    PartsOfKey(env, key);
    forall k | 0 <= k < |ts|
      ensures HasColumns(env.cols, ts[k])
    {
      assert ts[k] == env.nondup[TargetIdx(t)[k]];
    }
  }

  /** `resolved_rows`. */
  function RowsOf(env: Env, steps: seq<Resolved>): (r: seq<Row>)
    requires EnvOk(env) && StepsOk(env, steps)
    ensures |r| == |steps| && forall k :: 0 <= k < |steps| ==> r[k] == RowOf(env, steps[k])
  {
    seq(|steps|, k requires 0 <= k < |steps| => RowOf(env, steps[k]))
  }

  lemma {:induction false} RowsOfAppend(env: Env, steps: seq<Resolved>, s: Resolved)
    requires EnvOk(env) && StepsOk(env, steps) && StepOk(env, s)
    ensures StepsOk(env, steps + [s]) && RowsOf(env, steps + [s]) == RowsOf(env, steps) + [RowOf(env, s)]
  {
    assert forall k :: 0 <= k < |steps| ==> (steps + [s])[k] == steps[k];
    var a, b := RowsOf(env, steps + [s]), RowsOf(env, steps) + [RowOf(env, s)];
    forall k | 0 <= k < |a|
      ensures a[k] == b[k]
    {
      if k < |steps| {
        assert b[k] == RowsOf(env, steps)[k];
      }
    }
    SameElements(a, b);
  }

  lemma {:induction false} SameElements<T>(a: seq<T>, b: seq<T>)
    requires |a| == |b| && forall k :: 0 <= k < |a| ==> a[k] == b[k]
    ensures a == b
  {
  }

  /** The accumulators of lines 169-171, with the resolved groups standing for
      `resolved_rows`, and the allocator's `generated_ids`. */
  datatype State = State(steps: seq<Resolved>, consumedDup: seq<nat>, consumedNondup: seq<nat>, generated: set<string>)

  /** Each recorded step carries its group's decision. */
  predicate Consistent(tiers: string -> Tier, steps: seq<Resolved>) {
    forall k :: 0 <= k < |steps| ==> steps[k].tier == tiers(steps[k].key)
  }

  /** The id a group resolved by tier `t` gets: its own original id for a
      direct union, a freshly allocated one for a merge. */
  ghost function IdFor(env: Env, t: Tier, key: string, gen: set<string>): (id: string)
    requires KeyParses(env, key) && GenParses(gen)
    ensures !t.Direct? ==> SuffixParses(id)
  {
    if t.Direct? then key else NewId(key, env.existing + gen)
  }

  /** One iteration of the group loop. */
  ghost function Step(env: Env, tiers: string -> Tier, key: string, st: State): (r: State)
    requires KeyParses(env, key) && GenParses(st.generated)
    ensures GenParses(r.generated)
  {
    var t := tiers(key);
    if t.Unresolved? then st
    else
      var id := IdFor(env, t, key, st.generated);
      State(st.steps + [Resolved(key, t, id)],
            st.consumedDup + PartIdx(env.dup, key, |env.dup|),
            st.consumedNondup + TargetIdx(t),
            if t.Direct? then st.generated else st.generated + {id})
  }

  /** The group loop over `keys`, from `st0`. */
  ghost function Run(env: Env, tiers: string -> Tier, keys: seq<string>, st0: State): (r: State)
    requires AllKeysParse(env, keys) && GenParses(st0.generated)
    ensures GenParses(r.generated)
    decreases |keys|
  {
    if keys == [] then st0
    else
      assert forall k :: k in keys[..|keys| - 1] ==> k in keys;
      Step(env, tiers, keys[|keys| - 1], Run(env, tiers, keys[..|keys| - 1], st0))
  }

  /** The loop over the first `i + 1` keys is the loop over the first `i`
      followed by one more step. */
  lemma {:induction false} RunSnoc(env: Env, tiers: string -> Tier, keys: seq<string>, i: nat, st0: State)
    requires i < |keys| && AllKeysOk(env, keys) && GenParses(st0.generated)
    ensures AllKeysParse(env, keys[..i]) && AllKeysParse(env, keys[..i + 1]) && KeyOk(env, keys[i])
    ensures Run(env, tiers, keys[..i + 1], st0) == Step(env, tiers, keys[i], Run(env, tiers, keys[..i], st0))
  {
    assert keys[..i + 1][..i] == keys[..i];
    forall k | k in keys[..i + 1]
      ensures KeyParses(env, k)
    {
      assert k in keys;
    }
  }

  /** Every recorded step is a resolved group with existing targets, carrying
      its group's decision. */
  lemma {:induction false} RunStepsOk(env: Env, tiers: string -> Tier, keys: seq<string>, st0: State)
    requires InRange(env, tiers) && AllKeysOk(env, keys) && GenParses(st0.generated)
    requires StepsOk(env, st0.steps) && Consistent(tiers, st0.steps)
    ensures StepsOk(env, Run(env, tiers, keys, st0).steps) && Consistent(tiers, Run(env, tiers, keys, st0).steps)
    decreases |keys|
  {
    if keys != [] {
      var init, last := keys[..|keys| - 1], keys[|keys| - 1];
      assert forall k :: k in init ==> k in keys;
      assert last in keys;
      RunStepsOk(env, tiers, init, st0);
      var st := Run(env, tiers, init, st0);
      if !tiers(last).Unresolved? {
        var s := Resolved(last, tiers(last), IdFor(env, tiers(last), last, st.generated));
        assert Run(env, tiers, keys, st0).steps == st.steps + [s];
        assert StepOk(env, s);
      }
    }
  }

  // ---------------------------------------------------------------------------
  // One group, as the loop body computes it

  /** What the loop body produces for the group of `key` decided by tier `t`
      when `gen` holds the ids generated so far: no row for an unresolved
      group, otherwise its row and the non-duplicated positions it absorbs;
      `gen'` is the new set of generated ids. */
  ghost predicate TierResult(env: Env, key: string, t: Tier, gen: set<string>, r: Option<(Row, seq<nat>)>, gen': set<string>)
    requires EnvOk(env) && KeyOk(env, key) && GenParses(gen) && TierInRange(env, t)
  {
    (r.None? <==> t.Unresolved?) &&
    gen' == (if t.Single? || t.Pair? then gen + {IdFor(env, t, key, gen)} else gen) &&
    (r.Some? ==>
      r.value.1 == TargetIdx(t) &&
      r.value.0.id == IdFor(env, t, key, gen) &&
      StepOk(env, Resolved(key, t, r.value.0.id)) &&
      r.value.0 == RowOf(env, Resolved(key, t, r.value.0.id)))
  }

  /** The same, for the tier the engine decides. */
  ghost predicate GroupResult(env: Env, key: string, gen: set<string>, r: Option<(Row, seq<nat>)>, gen': set<string>)
    requires EnvOk(env) && KeyOk(env, key) && GenParses(gen)
  {
    TierResult(env, key, Decide(env, key), gen, r, gen')
  }

  /** Lines 175-184: contiguous parts are united under the original id. */
  lemma {:induction false} DirectResult(env: Env, key: string, gen: set<string>, row: Row)
    requires EnvOk(env) && KeyOk(env, key) && GenParses(gen)
    requires |Parts(env.dup, key)| > 0 && row == DirectRow(Parts(env.dup, key), key)
    ensures TierResult(env, key, Direct, gen, Some((row, [])), gen)
  {
  }

  /** The row of a group that absorbs the targets of tier `t`, under the id
      generated for it. */
  ghost predicate MergedFrom(env: Env, key: string, t: Tier, gen: set<string>, row: Row)
    requires EnvOk(env) && KeyOk(env, key) && GenParses(gen) && TierInRange(env, t)
  {
    Mergeable(Parts(env.dup, key), Targets(env, t), env.cols) &&
    row == MergeRow(Parts(env.dup, key), Targets(env, t), env.cols, IdFor(env, t, key, gen))
  }

  /** Lines 187-208 and 212-226: the neighbour, or the pair of neighbours, is
      absorbed. */
  lemma {:induction false} MergedResult(env: Env, key: string, gen: set<string>, t: Tier, row: Row)
    requires EnvOk(env) && KeyOk(env, key) && GenParses(gen) && TierInRange(env, t)
    requires (t.Single? || t.Pair?) && MergedFrom(env, key, t, gen, row)
    ensures TierResult(env, key, t, gen, Some((row, TargetIdx(t))), gen + {row.id})
  {
    assert StepOk(env, Resolved(key, t, row.id));
    MergedRowOf(env, key, gen, t, row);
  }

  lemma {:induction false} MergedRowOf(env: Env, key: string, gen: set<string>, t: Tier, row: Row)
    requires EnvOk(env) && KeyOk(env, key) && GenParses(gen) && TierInRange(env, t)
    requires (t.Single? || t.Pair?) && MergedFrom(env, key, t, gen, row)
    requires StepOk(env, Resolved(key, t, row.id))
    ensures row == RowOf(env, Resolved(key, t, row.id))
  {
  }

  lemma {:induction false} SingleTargets(env: Env, c: nat)
    requires c < |env.nondup|
    ensures TierInRange(env, Single(c)) && Targets(env, Single(c)) == [env.nondup[c]]
  {
  }

  lemma {:induction false} PairTargets(env: Env, a: nat, b: nat)
    requires a < b < |env.nondup|
    ensures TierInRange(env, Pair(a, b)) && Targets(env, Pair(a, b)) == [env.nondup[a], env.nondup[b]]
  {
  }

  lemma {:induction false} DecideDirect(env: Env, key: string)
    requires WeaklyContiguous(env.topo, Parts(env.dup, key), env.minShared)
    ensures Decide(env, key) == Direct
  {
  }

  lemma {:induction false} DecideSingle(env: Env, key: string, c: nat)
    requires !WeaklyContiguous(env.topo, Parts(env.dup, key), env.minShared)
    requires BestSingle(env.topo, Parts(env.dup, key), env.nondup, env.minShared) == Some(c)
    ensures Decide(env, key) == Single(c)
  {
  }

  lemma {:induction false} DecidePair(env: Env, key: string, a: nat, b: nat)
    requires !WeaklyContiguous(env.topo, Parts(env.dup, key), env.minShared)
    requires BestSingle(env.topo, Parts(env.dup, key), env.nondup, env.minShared).None?
    requires BestPair(env.topo, Parts(env.dup, key), env.nondup, env.minShared) == Some((a, b))
    ensures Decide(env, key) == Pair(a, b)
  {
  }

  /** A group no tier resolves produces nothing. */
  lemma {:induction false} DecideUnresolved(env: Env, key: string)
    requires !WeaklyContiguous(env.topo, Parts(env.dup, key), env.minShared)
    requires BestSingle(env.topo, Parts(env.dup, key), env.nondup, env.minShared).None?
    requires BestPair(env.topo, Parts(env.dup, key), env.nondup, env.minShared).None?
    ensures Decide(env, key) == Unresolved
  {
  }

  /** Lines 175-184 as the loop body runs them. */
  lemma {:induction false} DirectGroup(env: Env, key: string, gen: set<string>, row: Row)
    requires EnvOk(env) && KeyOk(env, key) && GenParses(gen)
    requires WeaklyContiguous(env.topo, Parts(env.dup, key), env.minShared)
    requires |Parts(env.dup, key)| > 0 && row == DirectRow(Parts(env.dup, key), key)
    ensures GroupResult(env, key, gen, Some((row, [])), gen)
  {
    DecideDirect(env, key);
    DirectResult(env, key, gen, row);
  }

  /** Lines 187-208 as the loop body runs them. */
  lemma {:induction false} SingleGroup(env: Env, key: string, gen: set<string>, c: nat, row: Row)
    requires EnvOk(env) && KeyOk(env, key) && GenParses(gen)
    requires !WeaklyContiguous(env.topo, Parts(env.dup, key), env.minShared)
    requires BestSingle(env.topo, Parts(env.dup, key), env.nondup, env.minShared) == Some(c)
    requires c < |env.nondup| && Mergeable(Parts(env.dup, key), [env.nondup[c]], env.cols)
    requires row == MergeRow(Parts(env.dup, key), [env.nondup[c]], env.cols, NewId(key, env.existing + gen))
    ensures GroupResult(env, key, gen, Some((row, [c])), gen + {row.id})
  {
    DecideSingle(env, key, c);
    SingleTargets(env, c);
    MergedResult(env, key, gen, Single(c), row);
  }

  /** Lines 212-226 as the loop body runs them. */
  lemma {:induction false} PairGroup(env: Env, key: string, gen: set<string>, a: nat, b: nat, row: Row)
    requires EnvOk(env) && KeyOk(env, key) && GenParses(gen)
    requires !WeaklyContiguous(env.topo, Parts(env.dup, key), env.minShared)
    requires BestSingle(env.topo, Parts(env.dup, key), env.nondup, env.minShared).None?
    requires BestPair(env.topo, Parts(env.dup, key), env.nondup, env.minShared) == Some((a, b))
    requires a < b < |env.nondup| && Mergeable(Parts(env.dup, key), [env.nondup[a], env.nondup[b]], env.cols)
    requires row == MergeRow(Parts(env.dup, key), [env.nondup[a], env.nondup[b]], env.cols, NewId(key, env.existing + gen))
    ensures GroupResult(env, key, gen, Some((row, [a, b])), gen + {row.id})
  {
    DecidePair(env, key, a, b);
    PairTargets(env, a, b);
    MergedResult(env, key, gen, Pair(a, b), row);
  }

  /** Line 227: a group no tier resolves produces nothing. */
  lemma {:induction false} UnresolvedGroup(env: Env, key: string, gen: set<string>)
    requires EnvOk(env) && KeyOk(env, key) && GenParses(gen)
    requires !WeaklyContiguous(env.topo, Parts(env.dup, key), env.minShared)
    requires BestSingle(env.topo, Parts(env.dup, key), env.nondup, env.minShared).None?
    requires BestPair(env.topo, Parts(env.dup, key), env.nondup, env.minShared).None?
    ensures GroupResult(env, key, gen, None, gen)
  {
    DecideUnresolved(env, key);
  }

  /** The loop body's result is one `Step` of the specification. */
  lemma {:induction false} StepOfResult(env: Env, key: string, st: State, r: Option<(Row, seq<nat>)>, gen': set<string>)
    requires EnvOk(env) && KeyOk(env, key) && GenParses(st.generated)
    requires GroupResult(env, key, st.generated, r, gen')
    ensures r.None? ==> Step(env, Decisions(env), key, st) == st
    ensures r.Some? ==>
      StepOk(env, Resolved(key, Decide(env, key), r.value.0.id)) &&
      r.value.0 == RowOf(env, Resolved(key, Decide(env, key), r.value.0.id)) &&
      Step(env, Decisions(env), key, st) ==
        State(st.steps + [Resolved(key, Decide(env, key), r.value.0.id)],
              st.consumedDup + PartIdx(env.dup, key, |env.dup|),
              st.consumedNondup + r.value.1,
              gen')
  {
    assert Decisions(env)(key) == Decide(env, key);
  }

  // ---------------------------------------------------------------------------
  // The result frames

  /** Lines 260-262: `str[:15].str.ljust(15, "0")`. */
  function FixId(id: string): (r: string)
    ensures |r| == 15
    ensures |id| <= 15 ==> r[..|id|] == id && forall i :: |id| <= i < 15 ==> r[i] == '0'
    ensures |id| >= 15 ==> r == id[..15]
  {
    LJust(Take(id, 15), 15, '0')
  }

  function FixIds(rows: seq<Row>): (r: seq<Row>)
    ensures |r| == |rows|
    ensures forall k :: 0 <= k < |r| ==> r[k] == rows[k].(id := FixId(rows[k].id))
  {
    seq(|rows|, k requires 0 <= k < |rows| => rows[k].(id := FixId(rows[k].id)))
  }

  /** Lines 232-262: the untouched non-duplicated rows followed by the resolved
      rows, with fixed-width ids, and the duplicated rows nobody consumed. */
  function Output(env: Env, st: State): (seq<Row>, seq<Row>)
    requires EnvOk(env) && StepsOk(env, st.steps)
  {
    (FixIds(Keep(env.nondup, st.consumedNondup, |env.nondup|) + RowsOf(env, st.steps)),
     Keep(env.dup, st.consumedDup, |env.dup|))
  }

  /** The engine's final state, starting from the generated ids `gen`. */
  ghost function Final(env: Env, gen: set<string>): (st: State)
    requires EnvOk(env) && AllKeysOk(env, GroupKeys(env.dup)) && GenParses(gen)
    ensures StepsOk(env, st.steps) && Consistent(Decisions(env), st.steps)
  {
    DecisionsInRange(env);
    RunStepsOk(env, Decisions(env), GroupKeys(env.dup), State([], [], [], gen));
    Run(env, Decisions(env), GroupKeys(env.dup), State([], [], [], gen))
  }

  /** The whole engine: the resolved frame and the remaining duplicates. */
  ghost function Outcome(env: Env, gen: set<string>): (seq<Row>, seq<Row>)
    requires EnvOk(env) && AllKeysOk(env, GroupKeys(env.dup)) && GenParses(gen)
  {
    Output(env, Final(env, gen))
  }

  // ---------------------------------------------------------------------------
  // What the loop accumulates

  /** The keys among `keys` whose group gets resolved, in order. */
  function ResolvedKeys(tiers: string -> Tier, keys: seq<string>): (r: seq<string>)
    ensures forall k :: k in r <==> k in keys && !tiers(k).Unresolved?
  {
    if keys == [] then []
    else
      var init := keys[..|keys| - 1];
      assert forall k :: k in keys <==> k in init || k == keys[|keys| - 1];
      ResolvedKeys(tiers, init) + (if tiers(keys[|keys| - 1]).Unresolved? then [] else [keys[|keys| - 1]])
  }

  function KeysOf(steps: seq<Resolved>): (r: seq<string>)
    ensures |r| == |steps| && forall k :: 0 <= k < |steps| ==> r[k] == steps[k].key
  {
    seq(|steps|, k requires 0 <= k < |steps| => steps[k].key)
  }

  /** The loop only appends to the steps it starts from. */
  lemma {:induction false} RunExtends(env: Env, tiers: string -> Tier, keys: seq<string>, st0: State)
    requires AllKeysParse(env, keys) && GenParses(st0.generated)
    ensures |st0.steps| <= |Run(env, tiers, keys, st0).steps|
    ensures Run(env, tiers, keys, st0).steps[..|st0.steps|] == st0.steps
    decreases |keys|
  {
    if keys != [] {
      var init, last := keys[..|keys| - 1], keys[|keys| - 1];
      assert forall k :: k in init ==> k in keys;
      RunExtends(env, tiers, init, st0);
      var st := Run(env, tiers, init, st0);
      assert Run(env, tiers, keys, st0).steps[..|st.steps|] == st.steps;
    }
  }

  /** The loop records one step per resolved group, in key order, after
      whatever `st0` held. */
  lemma {:induction false} RunSteps(env: Env, tiers: string -> Tier, keys: seq<string>, st0: State)
    requires AllKeysParse(env, keys) && GenParses(st0.generated)
    ensures KeysOf(Run(env, tiers, keys, st0).steps) == KeysOf(st0.steps) + ResolvedKeys(tiers, keys)
    decreases |keys|
  {
    if keys != [] {
      var init, last := keys[..|keys| - 1], keys[|keys| - 1];
      assert forall k :: k in init ==> k in keys;
      RunSteps(env, tiers, init, st0);
      var st := Run(env, tiers, init, st0);
      assert Run(env, tiers, keys, st0) == Step(env, tiers, last, st);
      StepKeys(env, tiers, last, st);
      if !tiers(last).Unresolved? {
        ConcatAssoc(KeysOf(st0.steps), ResolvedKeys(tiers, init), [last]);
      }
    }
  }

  /** One step records its key exactly when the group is resolved. */
  lemma {:induction false} StepKeys(env: Env, tiers: string -> Tier, key: string, st: State)
    requires KeyParses(env, key) && GenParses(st.generated)
    ensures KeysOf(Step(env, tiers, key, st).steps) ==
      KeysOf(st.steps) + (if tiers(key).Unresolved? then [] else [key])
  {
    if !tiers(key).Unresolved? {
      var s := Resolved(key, tiers(key), IdFor(env, tiers(key), key, st.generated));
      assert Step(env, tiers, key, st).steps == st.steps + [s];
      KeysOfSnoc(st.steps, s);
    } else {
      assert KeysOf(st.steps) + [] == KeysOf(st.steps);
    }
  }

  lemma {:induction false} KeysOfSnoc(steps: seq<Resolved>, s: Resolved)
    ensures KeysOf(steps + [s]) == KeysOf(steps) + [s.key]
  {
    SameElements(KeysOf(steps + [s]), KeysOf(steps) + [s.key]);
  }

  lemma {:induction false} ConcatAssoc<T>(a: seq<T>, b: seq<T>, c: seq<T>)
    ensures (a + b) + c == a + (b + c)
  {
  }

  /** What a resolved row records about its group: the covered cells,
      `was_multipart` and `comb_adj`. */
  datatype Shape = Shape(geom: Geom, wasMultipart: nat, combAdj: Option<nat>)

  function ShapeOf(row: Row): Shape {
    Shape(row.geom, row.wasMultipart, row.combAdj)
  }

  /** The group of `key` under tier `t` resolves into the union of its parts
      and its targets, flagged as multipart, with the number of targets in
      `comb_adj`. */
  function GroupShape(env: Env, t: Tier, key: string): Shape
    requires TierInRange(env, t)
  {
    Shape(UnionAll(Parts(env.dup, key)) + UnionAll(Targets(env, t)), 1, Some(|TargetIdx(t)|))
  }

  /** The row of a resolved group has the group's shape; a direct union keeps
      the original id. */
  lemma {:induction false} RowOfShape(env: Env, s: Resolved)
    requires EnvOk(env) && StepOk(env, s)
    ensures ShapeOf(RowOf(env, s)) == GroupShape(env, s.tier, s.key)
    ensures RowOf(env, s).id == (if s.tier.Direct? then s.key else s.id)
  {
    PartsOfKey(env, s.key);
    if s.tier.Direct? {
      assert UnionAll(Targets(env, s.tier)) == {};
    }
  }

  /** A duplicated row is consumed exactly when its group is resolved. */
  lemma {:induction false} RunConsumedDup(env: Env, tiers: string -> Tier, keys: seq<string>, st0: State)
    requires AllKeysParse(env, keys) && GenParses(st0.generated)
    ensures forall i: nat :: i in Run(env, tiers, keys, st0).consumedDup <==>
      i in st0.consumedDup || (i < |env.dup| && env.dup[i].origId in ResolvedKeys(tiers, keys))
    decreases |keys|
  {
    if keys != [] {
      var init := keys[..|keys| - 1];
      assert forall k :: k in init ==> k in keys;
      RunConsumedDup(env, tiers, init, st0);
    }
  }

  /** A non-duplicated row is consumed exactly when some resolved group
      absorbed it. */
  lemma {:induction false} RunConsumedNondup(env: Env, tiers: string -> Tier, keys: seq<string>, st0: State)
    requires AllKeysParse(env, keys) && GenParses(st0.generated)
    ensures forall j: nat :: j in Run(env, tiers, keys, st0).consumedNondup <==>
      j in st0.consumedNondup || exists k :: k in keys && j in TargetIdx(tiers(k))
    decreases |keys|
  {
    if keys != [] {
      var init, last := keys[..|keys| - 1], keys[|keys| - 1];
      assert forall k :: k in keys <==> k in init || k == last;
      RunConsumedNondup(env, tiers, init, st0);
    }
  }

  // ---------------------------------------------------------------------------
  // Properties of the result

  /** Every id of the resolved frame is 15 characters long. */
  lemma {:induction false} OutputIdWidth(env: Env, st: State)
    requires EnvOk(env) && StepsOk(env, st.steps)
    ensures forall k :: 0 <= k < |Output(env, st).0| ==> |Output(env, st).0[k].id| == 15
  {
  }

  /** The duplicated rows left over are exactly those of unresolved groups,
      in frame order. */
  lemma {:induction false} RemainingDupExactly(env: Env, gen: set<string>)
    requires EnvOk(env) && AllKeysOk(env, GroupKeys(env.dup)) && GenParses(gen)
    ensures var idx := KeptIdx(Final(env, gen).consumedDup, |env.dup|);
      Outcome(env, gen).1 == Gather(env.dup, idx) &&
      forall i: nat :: i < |env.dup| ==> (i in idx <==> Decide(env, env.dup[i].origId).Unresolved?)
    ensures forall i :: 0 <= i < |env.dup| && Decide(env, env.dup[i].origId).Unresolved? ==>
      env.dup[i] in Outcome(env, gen).1
    ensures forall x :: x in Outcome(env, gen).1 ==>
      exists i :: 0 <= i < |env.dup| && env.dup[i] == x && Decide(env, env.dup[i].origId).Unresolved?
  {
    var keys, tiers := GroupKeys(env.dup), Decisions(env);
    var st0 := State([], [], [], gen);
    DecisionsInRange(env);
    RunConsumedDup(env, tiers, keys, st0);
    var st := Final(env, gen);
    forall i: nat | i < |env.dup|
      ensures i in st.consumedDup <==> !Decide(env, env.dup[i].origId).Unresolved?
    {
      assert env.dup[i].origId in keys;
      assert tiers(env.dup[i].origId) == Decide(env, env.dup[i].origId);
    }
    forall i | 0 <= i < |env.dup| && Decide(env, env.dup[i].origId).Unresolved?
      ensures i !in st.consumedDup
    {
      assert tiers(env.dup[i].origId).Unresolved?;
    }
    forall x | x in Outcome(env, gen).1
      ensures exists i :: 0 <= i < |env.dup| && env.dup[i] == x && Decide(env, env.dup[i].origId).Unresolved?
    {
      var i :| 0 <= i < |env.dup| && i !in st.consumedDup && env.dup[i] == x;
      assert env.dup[i].origId in keys;
      assert env.dup[i].origId !in ResolvedKeys(tiers, keys);
    }
  }

  /** A non-duplicated row no group absorbs comes out unchanged but for its
      fixed-width id. */
  lemma {:induction false} UnabsorbedKept(env: Env, gen: set<string>, j: nat)
    requires EnvOk(env) && AllKeysOk(env, GroupKeys(env.dup)) && GenParses(gen)
    requires j < |env.nondup| && forall k :: k in GroupKeys(env.dup) ==> j !in TargetIdx(Decide(env, k))
    ensures env.nondup[j].(id := FixId(env.nondup[j].id)) in Outcome(env, gen).0
  {
    var keys, tiers := GroupKeys(env.dup), Decisions(env);
    var st0 := State([], [], [], gen);
    DecisionsInRange(env);
    RunConsumedNondup(env, tiers, keys, st0);
    var st := Final(env, gen);
    assert forall k :: k in keys ==> tiers(k) == Decide(env, k);
    assert j !in st.consumedNondup;
    var kept := Keep(env.nondup, st.consumedNondup, |env.nondup|);
    assert env.nondup[j] in kept;
    FixedKept(kept, RowsOf(env, st.steps), env.nondup[j]);
  }

  /** A kept row comes out of the final id fix with only its id changed. */
  lemma {:induction false} FixedKept(kept: seq<Row>, rows: seq<Row>, x: Row)
    requires x in kept
    ensures x.(id := FixId(x.id)) in FixIds(kept + rows)
  {
    var p :| 0 <= p < |kept| && kept[p] == x;
    assert (kept + rows)[p] == x;
  }

  /** Each resolved row has its step's group shape. */
  lemma {:induction false} RowsShapes(env: Env, steps: seq<Resolved>)
    requires EnvOk(env) && StepsOk(env, steps)
    ensures forall p :: 0 <= p < |steps| ==>
      ShapeOf(RowsOf(env, steps)[p]) == GroupShape(env, steps[p].tier, steps[p].key)
  {
    forall p | 0 <= p < |steps|
      ensures ShapeOf(RowsOf(env, steps)[p]) == GroupShape(env, steps[p].tier, steps[p].key)
    {
      RowOfShape(env, steps[p]);
    }
  }

  /** Fixing the ids keeps every row's shape. */
  lemma {:induction false} FixIdsShape(xs: seq<Row>, ys: seq<Row>, p: nat)
    requires p < |ys|
    ensures |FixIds(xs + ys)| == |xs| + |ys| && ShapeOf(FixIds(xs + ys)[|xs| + p]) == ShapeOf(ys[p])
  {
    assert (xs + ys)[|xs| + p] == ys[p];
  }

  /** `out` holds `n` rows, then one row per step with that step's group
      shape. */
  predicate ShapesFrom(env: Env, out: seq<Row>, n: nat, steps: seq<Resolved>) {
    StepsOk(env, steps) && |out| == n + |steps| &&
    forall p :: 0 <= p < |steps| ==> ShapeOf(out[n + p]) == GroupShape(env, steps[p].tier, steps[p].key)
  }

  /** The resolved frame holds the kept rows, then one row per recorded step
      with that step's group shape. */
  lemma {:induction false} OutputShapes(env: Env, st: State)
    requires EnvOk(env) && StepsOk(env, st.steps)
    ensures ShapesFrom(env, Output(env, st).0, |Keep(env.nondup, st.consumedNondup, |env.nondup|)|, st.steps)
  {
    var kept := Keep(env.nondup, st.consumedNondup, |env.nondup|);
    var rows := RowsOf(env, st.steps);
    var out := FixIds(kept + rows);
    assert Output(env, st).0 == out;
    RowsShapes(env, st.steps);
    forall p | 0 <= p < |st.steps|
      ensures ShapeOf(out[|kept| + p]) == GroupShape(env, st.steps[p].tier, st.steps[p].key)
    {
      FixIdsShape(kept, rows, p);
    }
  }

  /** The id fix works row by row, so the fixed kept rows lead the fixed frame. */
  lemma {:induction false} FixIdsPrefix(kept: seq<Row>, rows: seq<Row>)
    ensures FixIds(kept + rows)[..|kept|] == FixIds(kept)
  {
    forall k | 0 <= k < |kept| ensures FixIds(kept + rows)[k] == FixIds(kept)[k] {
      assert (kept + rows)[k] == kept[k];
    }
  }

  /** The resolved frame starts with the kept rows, ids fixed. */
  lemma {:induction false} OutputPrefix(env: Env, st: State)
    requires EnvOk(env) && StepsOk(env, st.steps)
    ensures var kept := Keep(env.nondup, st.consumedNondup, |env.nondup|);
      Output(env, st).0[..|kept|] == FixIds(kept)
  {
    FixIdsPrefix(Keep(env.nondup, st.consumedNondup, |env.nondup|), RowsOf(env, st.steps));
  }

  /** The resolved frame starts with the non-duplicated rows that no group
      absorbs, in frame order, each with its id fixed. */
  lemma {:induction false} UnabsorbedLead(env: Env, gen: set<string>)
    requires EnvOk(env) && AllKeysOk(env, GroupKeys(env.dup)) && GenParses(gen)
    ensures var idx := KeptIdx(Final(env, gen).consumedNondup, |env.nondup|);
      Outcome(env, gen).0[..|idx|] == FixIds(Gather(env.nondup, idx)) &&
      forall j: nat :: j < |env.nondup| ==>
        (j in idx <==> forall k :: k in GroupKeys(env.dup) ==> j !in TargetIdx(Decide(env, k)))
  {
    var keys, tiers := GroupKeys(env.dup), Decisions(env);
    DecisionsInRange(env);
    RunConsumedNondup(env, tiers, keys, State([], [], [], gen));
    var st := Final(env, gen);
    assert forall k :: k in keys ==> tiers(k) == Decide(env, k);
    OutputPrefix(env, st);
  }

  /** `out` holds `n` rows, then one row per key, each with the shape its
      group resolves into under `tiers`. */
  predicate GroupsFrom(env: Env, tiers: string -> Tier, out: seq<Row>, n: nat, keys: seq<string>) {
    |out| == n + |keys| &&
    forall p :: 0 <= p < |keys| ==>
      TierInRange(env, tiers(keys[p])) && ShapeOf(out[n + p]) == GroupShape(env, tiers(keys[p]), keys[p])
  }

  /** One output row per resolved group, after the kept rows and in key order,
      each the union of its group and its targets. */
  lemma {:induction false} ResolvedOutput(env: Env, gen: set<string>)
    requires EnvOk(env) && AllKeysOk(env, GroupKeys(env.dup)) && GenParses(gen)
    ensures GroupsFrom(env, Decisions(env), Outcome(env, gen).0,
                       |Keep(env.nondup, Final(env, gen).consumedNondup, |env.nondup|)|,
                       ResolvedKeys(Decisions(env), GroupKeys(env.dup)))
  {
    var keys, tiers := GroupKeys(env.dup), Decisions(env);
    RunSteps(env, tiers, keys, State([], [], [], gen));
    var st := Final(env, gen);
    OutputShapes(env, st);
    ShapesGroups(env, tiers, Outcome(env, gen).0, |Keep(env.nondup, st.consumedNondup, |env.nondup|)|,
                 st.steps, ResolvedKeys(tiers, keys));
  }

  /** Steps that carry the decisions of `keys`, in order, give rows with the
      groups' shapes. */
  lemma {:induction false} ShapesGroups(env: Env, tiers: string -> Tier, out: seq<Row>, n: nat, steps: seq<Resolved>, keys: seq<string>)
    requires ShapesFrom(env, out, n, steps) && Consistent(tiers, steps) && KeysOf(steps) == keys
    ensures GroupsFrom(env, tiers, out, n, keys)
  {
    forall p | 0 <= p < |keys|
      ensures steps[p].key == keys[p] && steps[p].tier == tiers(keys[p])
    {
      assert KeysOf(steps)[p] == keys[p];
    }
  }

  /** Two different rows of `out` contain `g`. */
  predicate CoveredByTwo(out: seq<Row>, g: Geom) {
    exists p1, p2 :: 0 <= p1 < |out| && 0 <= p2 < |out| && p1 != p2 && g <= out[p1].geom && g <= out[p2].geom
  }

  /** Rows `n + p` whose key is `k1` or `k2` all cover `g`: two of them do. */
  lemma {:induction false} TwoCovering(out: seq<Row>, n: nat, keys: seq<string>, k1: string, k2: string, g: Geom)
    requires |out| == n + |keys| && k1 != k2 && k1 in keys && k2 in keys
    requires forall p :: 0 <= p < |keys| && (keys[p] == k1 || keys[p] == k2) ==> g <= out[n + p].geom
    ensures CoveredByTwo(out, g)
  {
    var p1 :| 0 <= p1 < |keys| && keys[p1] == k1;
    var p2 :| 0 <= p2 < |keys| && keys[p2] == k2;
    assert g <= out[n + p1].geom && g <= out[n + p2].geom;
  }

  /** Two distinct groups that absorbed `c` give two rows that cover it. */
  lemma {:induction false} CoveredTwice(env: Env, tiers: string -> Tier, out: seq<Row>, n: nat, keys: seq<string>, k1: string, k2: string, c: nat)
    requires GroupsFrom(env, tiers, out, n, keys)
    requires k1 != k2 && k1 in keys && k2 in keys
    requires c in TargetIdx(tiers(k1)) && c in TargetIdx(tiers(k2))
    ensures CoveredByTwo(out, env.nondup[c].geom)
  {
    assert TierInRange(env, tiers(k1));
    var g := env.nondup[c].geom;
    forall p | 0 <= p < |keys| && (keys[p] == k1 || keys[p] == k2)
      ensures g <= out[n + p].geom
    {
      Covers(env, tiers(keys[p]), keys[p], c, out[n + p]);
    }
    TwoCovering(out, n, keys, k1, k2, g);
  }

  /** A group that absorbs a neighbour is resolved. */
  lemma {:induction false} Absorbing(tiers: string -> Tier, keys: seq<string>, k: string, c: nat)
    requires k in keys && c in TargetIdx(tiers(k))
    ensures k in ResolvedKeys(tiers, keys)
  {
  }

  /** Because the candidate pool is never reduced between groups, two groups
      can absorb the same neighbour: both resulting rows then cover it. */
  lemma {:induction false} SharedNeighbourAbsorbedTwice(env: Env, gen: set<string>, k1: string, k2: string, c: nat)
    requires EnvOk(env) && AllKeysOk(env, GroupKeys(env.dup)) && GenParses(gen)
    requires k1 != k2 && k1 in GroupKeys(env.dup) && k2 in GroupKeys(env.dup)
    requires c in TargetIdx(Decide(env, k1)) && c in TargetIdx(Decide(env, k2))
    ensures CoveredByTwo(Outcome(env, gen).0, env.nondup[c].geom)
  {
    var tiers := Decisions(env);
    var rk := ResolvedKeys(tiers, GroupKeys(env.dup));
    ResolvedOutput(env, gen);
    assert tiers(k1) == Decide(env, k1) && tiers(k2) == Decide(env, k2);
    Absorbing(tiers, GroupKeys(env.dup), k1, c);
    Absorbing(tiers, GroupKeys(env.dup), k2, c);
    CoveredTwice(env, tiers, Outcome(env, gen).0, |Keep(env.nondup, Final(env, gen).consumedNondup, |env.nondup|)|, rk, k1, k2, c);
  }

  /** A row with the shape of a group covers each of the group's targets. */
  lemma {:induction false} Covers(env: Env, t: Tier, key: string, c: nat, row: Row)
    requires TierInRange(env, t) && c in TargetIdx(t) && ShapeOf(row) == GroupShape(env, t, key)
    ensures env.nondup[c].geom <= row.geom
  {
    var ts := Targets(env, t);
    var k :| 0 <= k < |TargetIdx(t)| && TargetIdx(t)[k] == c;
    assert ts[k] == env.nondup[c];
  }
}
