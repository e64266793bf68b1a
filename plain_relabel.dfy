/** The plain relabeller (`_relabel_multipart_blocks`): every part of a
    duplicated block id gets a two-digit sequence suffix, the rows that were
    not duplicated keep their id, and every id is right-padded with '0'. */
module PlainRelabel {
  import opened Text
  import opened Records

  /** `astype(int)` accepts only decimal ids. */
  predicate NumericIds(rows: seq<Row>) {
    forall i :: 0 <= i < |rows| ==> |rows[i].id| > 0 && IsDigits(rows[i].id)
  }

  /** `str(int(s))`: the id without its leading zeros. */
  function Canonical(s: string): (r: string)
    requires |s| > 0 && IsDigits(s)
    ensures |r| > 0 && IsDigits(r)
  {
    ShowNat(ParseNat(s))
  }

  /** Lines 47-48: canonical ids, copied into `orig_id`. */
  function Normalize(rows: seq<Row>): (r: seq<Row>)
    requires NumericIds(rows)
    ensures |r| == |rows|
    ensures forall i :: 0 <= i < |r| ==> r[i].id == r[i].origId == Canonical(rows[i].id)
    ensures forall i :: 0 <= i < |r| ==> r[i] == rows[i].(id := r[i].id, origId := r[i].id)
  {
    seq(|rows|, i requires 0 <= i < |rows| =>
      var c := Canonical(rows[i].id); rows[i].(id := c, origId := c))
  }

  /** Normalizing keeps each id's integer value, and two rows share a
      normalized id exactly when their ids denote the same integer, so
      `"0012"` and `"12"` fall into one group. */
  lemma {:induction false} NormalizeGroups(rows: seq<Row>, i: nat, j: nat)
    requires NumericIds(rows) && i < |rows| && j < |rows|
    ensures ParseNat(Normalize(rows)[i].id) == ParseNat(rows[i].id)
    ensures Normalize(rows)[i].id == Normalize(rows)[j].id <==> ParseNat(rows[i].id) == ParseNat(rows[j].id)
  {
    ParseShow(ParseNat(rows[i].id));
    ParseShow(ParseNat(rows[j].id));
  }

  /** How many of `rows[..n]` carry `id`. */
  function CountBefore(rows: seq<Row>, n: nat, id: string): nat
    requires n <= |rows|
  {
    if n == 0 then 0 else CountBefore(rows, n - 1, id) + (if rows[n - 1].id == id then 1 else 0)
  }

  predicate Duplicated(all: seq<Row>, id: string) {
    CountBefore(all, |all|, id) >= 2
  }

  /** `identify_multipart_polygons(data, id, keep_largest=False)`: the rows of
      `rows` whose id occurs twice or more in `all` (`dup`), or once (`!dup`),
      in their original order. */
  function Select(rows: seq<Row>, all: seq<Row>, dup: bool): (r: seq<Row>)
    ensures forall x :: x in r ==> x in rows && Duplicated(all, x.id) == dup
  {
    if rows == [] then []
    else
      var last := rows[|rows| - 1];
      Select(rows[..|rows| - 1], all, dup) + (if Duplicated(all, last.id) == dup then [last] else [])
  }

  /** `cumcount() + 1`: the rank of part `i` within its id group, in group order. */
  function Rank(dups: seq<Row>, i: nat): nat
    requires i < |dups|
  {
    CountBefore(dups, i, dups[i].id) + 1
  }

  /** `str(count).zfill(2)`. */
  function PartSuffix(k: nat): string {
    ZFill(ShowNat(k), 2)
  }

  /** Lines 54-62: suffix every part with its rank and mark it as multipart. */
  function Numbered(dups: seq<Row>): (r: seq<Row>)
    ensures |r| == |dups|
  {
    seq(|dups|, i requires 0 <= i < |dups| =>
      dups[i].(id := dups[i].id + PartSuffix(Rank(dups, i)), wasMultipart := 1))
  }

  /** Line 65: `dup[id].str[:-2]`. */
  function StrippedIds(numbered: seq<Row>): set<string> {
    set i | 0 <= i < |numbered| :: DropLast2(numbered[i].id)
  }

  /** Lines 66-67: drop the rows whose id is in `stripped`, flag the rest as not multipart. */
  function RemoveIds(rows: seq<Row>, stripped: set<string>): (r: seq<Row>)
    ensures |r| <= |rows|
    ensures forall x :: x in r ==> exists y :: y in rows && y.id !in stripped && x == y.(wasMultipart := 0)
    ensures (forall i :: 0 <= i < |rows| ==> rows[i].id !in stripped) ==>
      |r| == |rows| && forall i :: 0 <= i < |rows| ==> r[i] == rows[i].(wasMultipart := 0)
  {
    if rows == [] then []
    else
      var last := rows[|rows| - 1];
      var init := rows[..|rows| - 1];
      assert forall i :: 0 <= i < |init| ==> init[i] == rows[i];
      RemoveIds(init, stripped) + (if last.id in stripped then [] else [last.(wasMultipart := 0)])
  }

  /** The filter of line 66 keeps every row whose id is not stripped. */
  lemma {:induction false} RemoveIdsKeepsUnstripped(rows: seq<Row>, stripped: set<string>)
    ensures forall i :: 0 <= i < |rows| && rows[i].id !in stripped ==>
      rows[i].(wasMultipart := 0) in RemoveIds(rows, stripped)
    decreases |rows|
  {
    if rows != [] {
      var init := rows[..|rows| - 1];
      RemoveIdsKeepsUnstripped(init, stripped);
      var r := RemoveIds(rows, stripped);
      assert r == RemoveIds(init, stripped) + (if rows[|rows| - 1].id in stripped then [] else [rows[|rows| - 1].(wasMultipart := 0)]);
      forall i | 0 <= i < |rows| && rows[i].id !in stripped
        ensures rows[i].(wasMultipart := 0) in r
      {
        if i < |init| {
          assert init[i] == rows[i];
        }
      }
    }
  }

  /** The rows, each flagged as not multipart. */
  function Cleared(rows: seq<Row>): (r: seq<Row>)
    ensures |r| == |rows| && forall i :: 0 <= i < |rows| ==> r[i] == rows[i].(wasMultipart := 0)
  {
    seq(|rows|, i requires 0 <= i < |rows| => rows[i].(wasMultipart := 0))
  }

  /** The positions of the rows whose id is in `stripped`. */
  function StrippedPos(rows: seq<Row>, stripped: set<string>): (d: seq<nat>)
    ensures forall i: nat :: i in d <==> i < |rows| && rows[i].id in stripped
  {
    if rows == [] then []
    else
      var init := rows[..|rows| - 1];
      assert forall i :: 0 <= i < |init| ==> init[i] == rows[i];
      StrippedPos(init, stripped) + (if rows[|rows| - 1].id in stripped then [|rows| - 1] else [])
  }

  /** Line 66 is a `drop` of the stripped positions: the kept rows come in
      frame order, each once (`Records.KeptIdx`). */
  lemma {:induction false} RemoveIdsInOrder(rows: seq<Row>, stripped: set<string>)
    ensures RemoveIds(rows, stripped) == Keep(Cleared(rows), StrippedPos(rows, stripped), |rows|)
  {
    RemovePrefixInOrder(rows, stripped, StrippedPos(rows, stripped), |rows|);
    assert rows[..|rows|] == rows;
  }

  /** `RemoveIdsInOrder` on the first `m` rows, against a fixed drop list. */
  lemma {:induction false} RemovePrefixInOrder(rows: seq<Row>, stripped: set<string>, d: seq<nat>, m: nat)
    requires m <= |rows|
    requires forall i: nat :: i < |rows| ==> (i in d <==> rows[i].id in stripped)
    ensures RemoveIds(rows[..m], stripped) == Gather(Cleared(rows), KeptIdx(d, m))
    decreases m
  {
    if m == 0 {
      assert rows[..0] == [];
      assert KeptIdx(d, 0) == [];
    } else {
      RemovePrefixInOrder(rows, stripped, d, m - 1);
      RemovePrefixStep(rows, stripped, d, m);
    }
  }

  /** The inductive step of `RemovePrefixInOrder`. */
  lemma {:induction false} RemovePrefixStep(rows: seq<Row>, stripped: set<string>, d: seq<nat>, m: nat)
    requires 0 < m <= |rows|
    requires forall i: nat :: i < |rows| ==> (i in d <==> rows[i].id in stripped)
    requires RemoveIds(rows[..m - 1], stripped) == Gather(Cleared(rows), KeptIdx(d, m - 1))
    ensures RemoveIds(rows[..m], stripped) == Gather(Cleared(rows), KeptIdx(d, m))
  {
    RemoveIdsSnoc(rows, stripped, m);
    GatherStep(rows, stripped, d, m);
  }

  /** One more row: the filter appends it unless its id is stripped. */
  lemma {:induction false} RemoveIdsSnoc(rows: seq<Row>, stripped: set<string>, m: nat)
    requires 0 < m <= |rows|
    ensures RemoveIds(rows[..m], stripped) ==
      RemoveIds(rows[..m - 1], stripped) + (if rows[m - 1].id in stripped then [] else [rows[m - 1].(wasMultipart := 0)])
  {
    assert rows[..m][..m - 1] == rows[..m - 1];
  }

  /** One more position: the gathered rows grow by the row the filter keeps. */
  lemma {:induction false} GatherStep(rows: seq<Row>, stripped: set<string>, d: seq<nat>, m: nat)
    requires 0 < m <= |rows|
    requires forall i: nat :: i < |rows| ==> (i in d <==> rows[i].id in stripped)
    ensures Gather(Cleared(rows), KeptIdx(d, m)) ==
      Gather(Cleared(rows), KeptIdx(d, m - 1)) + (if rows[m - 1].id in stripped then [] else [rows[m - 1].(wasMultipart := 0)])
  {
    var c := Cleared(rows);
    var a := KeptIdx(d, m - 1);
    var t := if m - 1 in d then [] else [m - 1];
    assert KeptIdx(d, m) == a + t;
    GatherAppend(c, a, t);
  }

  /** Gathering two runs of positions one after the other. */
  lemma {:induction false} GatherAppend(rows: seq<Row>, a: seq<nat>, t: seq<nat>)
    requires forall k :: 0 <= k < |a| ==> a[k] < |rows|
    requires forall k :: 0 <= k < |t| ==> t[k] < |rows|
    ensures Gather(rows, a + t) == Gather(rows, a) + Gather(rows, t)
  {
    var l, r := Gather(rows, a + t), Gather(rows, a) + Gather(rows, t);
    forall k | 0 <= k < |l| ensures l[k] == r[k] {
      if k < |a| {
        assert (a + t)[k] == a[k];
      } else {
        assert (a + t)[k] == t[k - |a|];
      }
    }
  }

  /** Line 77: `str.ljust(id_length, '0')` on every id. */
  function PadIds(rows: seq<Row>, w: nat): (r: seq<Row>)
    ensures |r| == |rows|
  {
    seq(|rows|, i requires 0 <= i < |rows| => rows[i].(id := LJust(rows[i].id, w, '0')))
  }

  function DupRows(rows: seq<Row>): seq<Row>
    requires NumericIds(rows)
  {
    var all := Normalize(rows);
    Select(all, all, true)
  }

  function SingleRows(rows: seq<Row>): seq<Row>
    requires NumericIds(rows)
  {
    var all := Normalize(rows);
    RemoveIds(Select(all, all, false), StrippedIds(Numbered(DupRows(rows))))
  }

  /** The new `self.data` after `_relabel_multipart_blocks`: the kept single
      rows first, then the numbered parts, every id padded to `w`. */
  function Relabel(rows: seq<Row>, w: nat): seq<Row>
    requires NumericIds(rows)
  {
    PadIds(SingleRows(rows) + Numbered(DupRows(rows)), w)
  }

  // ---------------------------------------------------------------------------
  // Properties

  lemma {:induction false} SelectOrigIds(rows: seq<Row>, all: seq<Row>, dup: bool)
    requires forall i :: 0 <= i < |rows| ==> rows[i].id == rows[i].origId
    ensures forall x :: x in Select(rows, all, dup) ==> x.id == x.origId
  {
  }

  /** The split is a partition of the input: each row lands in exactly one side. */
  lemma {:induction false} SelectPartition(rows: seq<Row>, all: seq<Row>)
    ensures multiset(Select(rows, all, true)) + multiset(Select(rows, all, false)) == multiset(rows)
  {
    if rows != [] {
      var init, last := rows[..|rows| - 1], rows[|rows| - 1];
      SelectPartition(init, all);
      var d, o := Select(init, all, true), Select(init, all, false);
      if Duplicated(all, last.id) {
        SelectSnoc(rows, all, d + [last], o);
        SplitSnoc(d, o, rows, d + [last], o);
      } else {
        SelectSnoc(rows, all, d, o + [last]);
        SplitSnoc(d, o, rows, d, o + [last]);
      }
    }
  }

  /** Adding the last element of `xs` to either side of a split of the
      others splits `xs`. */
  lemma {:induction false} SplitSnoc<T>(d: seq<T>, o: seq<T>, xs: seq<T>, d': seq<T>, o': seq<T>)
    requires xs != [] && multiset(d) + multiset(o) == multiset(xs[..|xs| - 1])
    requires (d' == d + [xs[|xs| - 1]] && o' == o) || (d' == d && o' == o + [xs[|xs| - 1]])
    ensures multiset(d') + multiset(o') == multiset(xs)
  {
    assert xs == xs[..|xs| - 1] + [xs[|xs| - 1]];
  }

  /** One more row goes to exactly one side of the split. */
  lemma {:induction false} SelectSnoc(rows: seq<Row>, all: seq<Row>, d: seq<Row>, o: seq<Row>)
    requires rows != []
    requires d == Select(rows[..|rows| - 1], all, true) + (if Duplicated(all, rows[|rows| - 1].id) then [rows[|rows| - 1]] else [])
    requires o == Select(rows[..|rows| - 1], all, false) + (if Duplicated(all, rows[|rows| - 1].id) then [] else [rows[|rows| - 1]])
    ensures Select(rows, all, true) == d && Select(rows, all, false) == o
  {
  }

  /** Earlier parts of a group have smaller ranks, so ranks never repeat within a group. */
  lemma {:induction false} RankIncreasing(dups: seq<Row>, i: nat, j: nat)
    requires i < j < |dups| && dups[i].id == dups[j].id
    ensures Rank(dups, i) < Rank(dups, j)
  {
    assert CountBefore(dups, i + 1, dups[i].id) == CountBefore(dups, i, dups[i].id) + 1;
    CountMonotone(dups, i + 1, j, dups[i].id);
  }

  lemma {:induction false} CountMonotone(rows: seq<Row>, m: nat, n: nat, id: string)
    requires m <= n <= |rows|
    ensures CountBefore(rows, m, id) <= CountBefore(rows, n, id)
    decreases n
  {
    if m < n {
      CountMonotone(rows, m, n - 1, id);
    }
  }

  lemma {:induction false} CountBound(rows: seq<Row>, m: nat, id: string)
    requires m <= |rows|
    ensures CountBefore(rows, m, id) <= CountBefore(rows, |rows|, id)
  {
    CountMonotone(rows, m, |rows|, id);
  }

  /** The number of parts of a group counted in `Select(..)` is the number in `all`. */
  lemma {:induction false} SelectCount(rows: seq<Row>, all: seq<Row>, id: string)
    requires Duplicated(all, id)
    ensures CountBefore(Select(rows, all, true), |Select(rows, all, true)|, id) == CountBefore(rows, |rows|, id)
  {
    if rows != [] {
      var init, last := rows[..|rows| - 1], rows[|rows| - 1];
      var s := Select(init, all, true);
      SelectCount(init, all, id);
      CountPrefix(rows, init, |init|, id);
      if Duplicated(all, last.id) {
        SelectSnoc(rows, all, s + [last], Select(init, all, false));
        CountAppend(s, last, id);
      } else {
        assert last.id != id;
        SelectSnoc(rows, all, s, Select(init, all, false) + [last]);
      }
    }
  }

  lemma {:induction false} CountAppend(rows: seq<Row>, x: Row, id: string)
    ensures CountBefore(rows + [x], |rows| + 1, id) == CountBefore(rows, |rows|, id) + (if x.id == id then 1 else 0)
  {
    CountPrefix(rows + [x], rows, |rows|, id);
  }

  lemma {:induction false} CountPrefix(rows: seq<Row>, pre: seq<Row>, n: nat, id: string)
    requires n <= |pre| <= |rows| && pre == rows[..|pre|]
    ensures CountBefore(rows, n, id) == CountBefore(pre, n, id)
  {
    if n > 0 {
      CountPrefix(rows, pre, n - 1, id);
    }
  }

  /** A part's rank is at most the size of its group. */
  lemma {:induction false} RankBound(rows: seq<Row>, i: nat)
    requires NumericIds(rows) && i < |DupRows(rows)|
    ensures Rank(DupRows(rows), i) <= CountBefore(Normalize(rows), |rows|, DupRows(rows)[i].id)
  {
    var all := Normalize(rows);
    var dups := DupRows(rows);
    var id := dups[i].id;
    assert dups[i] in Select(all, all, true);
    SelectCount(all, all, id);
    assert CountBefore(dups, i + 1, id) == Rank(dups, i);
    CountBound(dups, i + 1, id);
  }

  /** What the two blocks of the output look like, over the normalized rows. */
  lemma {:induction false} SingleRowsShape(rows: seq<Row>)
    requires NumericIds(rows)
    ensures forall x :: x in SingleRows(rows) ==>
      x.id == x.origId && x.wasMultipart == 0 && !Duplicated(Normalize(rows), x.origId)
  {
    var all := Normalize(rows);
    var ones := Select(all, all, false);
    SelectOrigIds(all, all, false);
    forall x | x in SingleRows(rows)
      ensures x.id == x.origId && x.wasMultipart == 0 && !Duplicated(all, x.origId)
    {
      var y :| y in ones && x == y.(wasMultipart := 0);
    }
  }

  lemma {:induction false} NumberedShape(rows: seq<Row>)
    requires NumericIds(rows)
    ensures forall q :: 0 <= q < |DupRows(rows)| ==>
      var x := Numbered(DupRows(rows))[q];
      x.id == x.origId + PartSuffix(Rank(DupRows(rows), q)) && x.wasMultipart == 1
      && Duplicated(Normalize(rows), x.origId)
  {
    var all := Normalize(rows);
    var dups := DupRows(rows);
    SelectOrigIds(all, all, true);
    forall q | 0 <= q < |dups|
      ensures Numbered(dups)[q].id == Numbered(dups)[q].origId + PartSuffix(Rank(dups, q))
      ensures Duplicated(all, Numbered(dups)[q].origId)
    {
      assert dups[q] in dups;
    }
  }

  lemma {:induction false} PadIdsAt(xs: seq<Row>, w: nat, p: nat)
    requires p < |xs|
    ensures PadIds(xs, w)[p] == xs[p].(id := LJust(xs[p].id, w, '0'))
  {
  }

  /** Rows `p` and `q` of `out` exist and carry different ids. */
  predicate IdsDiffer(out: seq<Row>, p: nat, q: nat) {
    p < |out| && q < |out| && out[p].id != out[q].id
  }

  /** Within every duplicated group the parts get pairwise distinct ids, and
      ids of equal length when the group has at most 99 parts (so that padding,
      by `PaddedPartsDiffer`, keeps them apart). */
  lemma {:induction false} PartIdsDistinct(rows: seq<Row>, i: nat, j: nat)
    requires NumericIds(rows)
    requires i < j < |DupRows(rows)|
    requires DupRows(rows)[i].origId == DupRows(rows)[j].origId
    ensures Numbered(DupRows(rows))[i].id != Numbered(DupRows(rows))[j].id
    ensures CountBefore(Normalize(rows), |rows|, DupRows(rows)[i].id) < 100 ==>
      |Numbered(DupRows(rows))[i].id| == |Numbered(DupRows(rows))[j].id|
  {
    PartsDiffer(rows, i, j, Normalize(rows), DupRows(rows));
  }

  lemma {:induction false} PartsDiffer(rows: seq<Row>, i: nat, j: nat, all: seq<Row>, dups: seq<Row>)
    requires NumericIds(rows)
    requires all == Normalize(rows) && dups == DupRows(rows)
    requires i < j < |dups| && dups[i].origId == dups[j].origId
    ensures Numbered(dups)[i].id != Numbered(dups)[j].id
    ensures CountBefore(all, |rows|, dups[i].id) < 100 ==>
      |Numbered(dups)[i].id| == |Numbered(dups)[j].id|
  {
    SelectOrigIds(all, all, true);
    assert dups[i] in dups && dups[j] in dups;
    assert dups[i].id == dups[j].id;
    NumberedDistinct(dups, i, j);
    RankBound(rows, j);
  }

  /** In the relabelled frame, two parts of one group with fewer than 100
      parts keep their original id and carry different ids. */
  lemma {:induction false} GroupPartIdsDistinct(rows: seq<Row>, w: nat, i: nat, j: nat)
    requires NumericIds(rows)
    requires i < j < |DupRows(rows)|
    requires DupRows(rows)[i].origId == DupRows(rows)[j].origId
    requires CountBefore(Normalize(rows), |rows|, DupRows(rows)[i].id) < 100
    ensures var out, n := Relabel(rows, w), |SingleRows(rows)|;
      n + j < |out| &&
      out[n + i].origId == out[n + j].origId == DupRows(rows)[i].origId &&
      out[n + i].wasMultipart == 1 && out[n + j].wasMultipart == 1 &&
      out[n + i].id != out[n + j].id
  {
    var dups := DupRows(rows);
    PartIdsDistinct(rows, i, j);
    RelabelPartAt(rows, w, i);
    RelabelPartAt(rows, w, j);
    LJustInjective(Numbered(dups)[i].id, Numbered(dups)[j].id, w);
  }

  /** Part `q` of the duplicated rows sits after the single rows, padded. */
  lemma {:induction false} RelabelPartAt(rows: seq<Row>, w: nat, q: nat)
    requires NumericIds(rows) && q < |DupRows(rows)|
    ensures var out, n, x := Relabel(rows, w), |SingleRows(rows)|, Numbered(DupRows(rows))[q];
      n + q < |out| && out[n + q] == x.(id := LJust(x.id, w, '0')) &&
      x.origId == DupRows(rows)[q].origId && x.wasMultipart == 1
  {
    RelabelBlocks(rows, w);
    NumberedAt(DupRows(rows), q);
    PaddedPart(SingleRows(rows), Numbered(DupRows(rows)), w, q);
  }

  lemma {:induction false} NumberedAt(dups: seq<Row>, q: nat)
    requires q < |dups|
    ensures Numbered(dups)[q].origId == dups[q].origId && Numbered(dups)[q].wasMultipart == 1
  {
  }

  lemma {:induction false} PaddedPart(singles: seq<Row>, num: seq<Row>, w: nat, q: nat)
    requires q < |num|
    ensures |singles| + q < |PadIds(singles + num, w)|
    ensures PadIds(singles + num, w)[|singles| + q] == num[q].(id := LJust(num[q].id, w, '0'))
  {
    assert (singles + num)[|singles| + q] == num[q];
  }

  lemma {:induction false} RelabelBlocks(rows: seq<Row>, w: nat)
    requires NumericIds(rows)
    ensures Relabel(rows, w) == PadIds(SingleRows(rows) + Numbered(DupRows(rows)), w)
  {
  }

  /** Two numbered parts with distinct ids of equal length keep distinct ids
      after the padding of line 77; the parts sit after the kept single rows. */
  lemma {:induction false} PaddedPartsDiffer(rows: seq<Row>, w: nat, i: nat, j: nat, singles: seq<Row>, num: seq<Row>)
    requires NumericIds(rows)
    requires singles == SingleRows(rows) && num == Numbered(DupRows(rows))
    requires i < j < |num|
    requires |num[i].id| == |num[j].id| && num[i].id != num[j].id
    ensures IdsDiffer(Relabel(rows, w), |singles| + i, |singles| + j)
  {
    RelabelBlocks(rows, w);
    PaddedBlockDistinct(singles, num, w, i, j);
  }

  lemma {:induction false} PaddedBlockDistinct(singles: seq<Row>, num: seq<Row>, w: nat, i: nat, j: nat)
    requires i < |num| && j < |num|
    requires |num[i].id| == |num[j].id| && num[i].id != num[j].id
    ensures PadIds(singles + num, w)[|singles| + i].id != PadIds(singles + num, w)[|singles| + j].id
  {
    PaddedPart(singles, num, w, i);
    PaddedPart(singles, num, w, j);
    LJustInjective(num[i].id, num[j].id, w);
  }

  /** Parts of one group get distinct suffixed ids; of equal length while the
      ranks stay below 100. */
  lemma {:induction false} NumberedDistinct(dups: seq<Row>, i: nat, j: nat)
    requires i < j < |dups| && dups[i].id == dups[j].id
    ensures Numbered(dups)[i].id != Numbered(dups)[j].id
    ensures Rank(dups, j) < 100 ==> |Numbered(dups)[i].id| == |Numbered(dups)[j].id|
  {
    var ri, rj := Rank(dups, i), Rank(dups, j);
    RankIncreasing(dups, i, j);
    var si, sj := PartSuffix(ri), PartSuffix(rj);
    PaddedRoundTrip(ri, 2);
    PaddedRoundTrip(rj, 2);
    ShowNatWidth(ri);
    ShowNatWidth(rj);
    var id := dups[i].id;
    assert (id + si)[|id|..] == si;
    assert (id + sj)[|id|..] == sj;
  }

  lemma {:induction false} LJustInjective(a: string, b: string, w: nat)
    requires |a| == |b| && a != b
    ensures LJust(a, w, '0') != LJust(b, w, '0')
  {
    var pa, pb := LJust(a, w, '0'), LJust(b, w, '0');
    assert pa[..|a|] == a && pb[..|b|] == b;
  }

  /** The padding cannot keep that promise at 100 parts: part 10 and part 100
      of a group get the same padded id as soon as the width is at least
      three characters more than the original id. */
  lemma {:induction false} PartIdsCollideFrom100(origId: string, w: nat)
    requires w >= |origId| + 3
    ensures LJust(origId + PartSuffix(10), w, '0') == LJust(origId + PartSuffix(100), w, '0')
  {
    assert ShowNat(1) == "1";
    assert ShowNat(10) == "10";
    assert ShowNat(100) == ShowNat(10) + "0" == "100";
    assert origId + "100" == (origId + "10") + ['0'];
    LJustAbsorbs(origId + "10", w, '0');
  }

  /** Padding already ends in the fill character, so one more of it makes no
      difference below the width. */
  lemma {:induction false} LJustAbsorbs(a: string, w: nat, c: char)
    requires |a| < w
    ensures LJust(a + [c], w, c) == LJust(a, w, c)
  {
    var x, y := LJust(a + [c], w, c), LJust(a, w, c);
    assert |x| == |y| == w;
    forall t | 0 <= t < w ensures x[t] == y[t] {
      if t < |a| {
        assert x[..|a| + 1][t] == (a + [c])[t] == a[t];
        assert y[..|a|][t] == a[t];
      } else if t == |a| {
        assert x[..|a| + 1][t] == (a + [c])[t] == c;
      }
    }
  }

  /** `was_multipart` is 1 exactly on the rows whose original id was duplicated. */
  lemma {:induction false} RelabelFlags(rows: seq<Row>, w: nat)
    requires NumericIds(rows)
    ensures forall r :: r in Relabel(rows, w) ==>
      r.wasMultipart == (if Duplicated(Normalize(rows), r.origId) then 1 else 0)
  {
    SingleRowsShape(rows);
    NumberedShape(rows);
    BlockFlags(SingleRows(rows), Numbered(DupRows(rows)), Normalize(rows), w);
  }

  lemma {:induction false} BlockFlags(singles: seq<Row>, num: seq<Row>, all: seq<Row>, w: nat)
    requires forall x :: x in singles ==> x.wasMultipart == 0 && !Duplicated(all, x.origId)
    requires forall q :: 0 <= q < |num| ==> num[q].wasMultipart == 1 && Duplicated(all, num[q].origId)
    ensures forall r :: r in PadIds(singles + num, w) ==>
      r.wasMultipart == (if Duplicated(all, r.origId) then 1 else 0)
  {
    var xs := singles + num;
    forall r | r in PadIds(xs, w)
      ensures r.wasMultipart == (if Duplicated(all, r.origId) then 1 else 0)
    {
      var p :| 0 <= p < |xs| && r == PadIds(xs, w)[p];
      if p < |singles| {
        assert xs[p] in singles;
      } else {
        assert xs[p] == num[p - |singles|];
      }
    }
  }

  /** Every id is at least `w` long and starts with the row's original id; a
      row that was not duplicated keeps exactly its own id, right-padded. */
  lemma {:induction false} RelabelIdShape(rows: seq<Row>, w: nat)
    requires NumericIds(rows)
    ensures forall r :: r in Relabel(rows, w) ==> |r.id| >= w && StartsWith(r.id, r.origId)
    ensures forall r :: r in Relabel(rows, w) && r.wasMultipart == 0 ==> r.id == LJust(r.origId, w, '0')
  {
    SingleRowsShape(rows);
    NumberedShape(rows);
    var num := Numbered(DupRows(rows));
    forall q | 0 <= q < |num| ensures StartsWith(num[q].id, num[q].origId) {
      assert num[q].id[..|num[q].origId|] == num[q].origId;
    }
    BlockIds(SingleRows(rows), num, w);
  }

  lemma {:induction false} BlockIds(singles: seq<Row>, num: seq<Row>, w: nat)
    requires forall x :: x in singles ==> x.id == x.origId && x.wasMultipart == 0
    requires forall q :: 0 <= q < |num| ==> StartsWith(num[q].id, num[q].origId) && num[q].wasMultipart == 1
    ensures forall r :: r in PadIds(singles + num, w) ==> |r.id| >= w && StartsWith(r.id, r.origId)
    ensures forall r :: r in PadIds(singles + num, w) && r.wasMultipart == 0 ==> r.id == LJust(r.origId, w, '0')
  {
    var xs := singles + num;
    forall r | r in PadIds(xs, w)
      ensures |r.id| >= w && StartsWith(r.id, r.origId)
      ensures r.wasMultipart == 0 ==> r.id == LJust(r.origId, w, '0')
    {
      var p :| 0 <= p < |xs| && r == PadIds(xs, w)[p];
      var x := xs[p];
      if p < |singles| {
        assert x in singles;
      } else {
        assert x == num[p - |singles|];
      }
      assert StartsWith(x.id, x.origId);
      assert r.id[..|x.id|] == x.id;
      assert r.id[..|r.origId|] == x.id[..|r.origId|];
    }
  }

  /** With fewer than 100 parts per group, cutting the two-digit suffix off a
      numbered part gives back its original id. */
  lemma {:induction false} NumberedStrips(rows: seq<Row>)
    requires NumericIds(rows)
    requires forall i :: 0 <= i < |rows| ==> CountBefore(Normalize(rows), |rows|, Normalize(rows)[i].id) < 100
    ensures forall q :: 0 <= q < |Numbered(DupRows(rows))| ==>
      DropLast2(Numbered(DupRows(rows))[q].id) == Numbered(DupRows(rows))[q].origId
  {
    forall q | 0 <= q < |Numbered(DupRows(rows))|
      ensures DropLast2(Numbered(DupRows(rows))[q].id) == Numbered(DupRows(rows))[q].origId
    {
      NumberedStripsAt(rows, q);
    }
  }

  lemma {:induction false} NumberedStripsAt(rows: seq<Row>, q: nat)
    requires NumericIds(rows)
    requires forall i :: 0 <= i < |rows| ==> CountBefore(Normalize(rows), |rows|, Normalize(rows)[i].id) < 100
    requires q < |DupRows(rows)|
    ensures DropLast2(Numbered(DupRows(rows))[q].id) == Numbered(DupRows(rows))[q].origId
  {
    var all := Normalize(rows);
    var dups := DupRows(rows);
    var num := Numbered(dups);
    NumberedShape(rows);
    assert dups[q] in dups;
    var a :| 0 <= a < |all| && all[a] == dups[q];
    RankBound(rows, q);
    ShowNatWidth(Rank(dups, q));
    StripTwo(num[q].origId, PartSuffix(Rank(dups, q)));
  }

  lemma {:induction false} StripTwo(x: string, s: string)
    requires |s| == 2
    ensures DropLast2(x + s) == x
  {
    assert (x + s)[..|x + s| - 2] == x;
  }

  /** When every group has at most 99 parts, `str[:-2]` recovers exactly the
      duplicated ids, so no single row is dropped and every input row appears
      once in the output. */
  lemma {:induction false} RelabelKeepsEveryRow(rows: seq<Row>, w: nat)
    requires NumericIds(rows)
    requires forall i :: 0 <= i < |rows| ==> CountBefore(Normalize(rows), |rows|, Normalize(rows)[i].id) < 100
    ensures |SingleRows(rows)| == |Select(Normalize(rows), Normalize(rows), false)|
    ensures |Relabel(rows, w)| == |rows|
  {
    var all := Normalize(rows);
    var dups := DupRows(rows);
    var num := Numbered(dups);
    var ones := Select(all, all, false);
    var stripped := StrippedIds(num);
    NumberedStrips(rows);
    SelectOrigIds(all, all, false);
    forall i | 0 <= i < |ones| ensures ones[i].id !in stripped {
      assert ones[i] in ones;
    }
    SelectPartition(all, all);
    assert |multiset(dups)| + |multiset(ones)| == |multiset(all)|;
  }
}
