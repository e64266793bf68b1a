/** The merge-id allocator (`_generate_new_id`): a merged polygon gets the
    group id without its two-digit part suffix, followed by a three-digit
    number one above the largest such number already in use for that prefix. */
module Identifiers {
  import opened Text

  /** `int(x[-3:])` succeeds: the last three characters (or the whole id when it
      is shorter) are a non-empty run of decimal digits. */
  predicate SuffixParses(x: string) {
    |Last3(x)| > 0 && IsDigits(Last3(x))
  }

  function Suffix(x: string): nat
    requires SuffixParses(x)
  {
    ParseNat(Last3(x))
  }

  /** Every used id that starts with `base` has a parsable suffix; otherwise
      `int(x[-3:])` raises. */
  predicate Parsable(base: string, used: set<string>) {
    forall x :: x in used && StartsWith(x, base) ==> SuffixParses(x)
  }

  /** `m` is `max(suffixes, default=0)` over the used ids starting with `base`. */
  predicate IsMaxSuffix(base: string, used: set<string>, m: nat)
    requires Parsable(base, used)
  {
    (forall x :: x in used && StartsWith(x, base) ==> Suffix(x) <= m) &&
    (m == 0 || exists x :: x in used && StartsWith(x, base) && Suffix(x) == m)
  }

  /** The largest suffix among the used ids with prefix `base`, 0 when none. */
  ghost function MaxSuffix(base: string, used: set<string>): (m: nat)
    requires Parsable(base, used)
    ensures IsMaxSuffix(base, used, m)
    decreases |used|
  {
    if used == {} then 0
    else
      var x :| x in used;
      var rest := MaxSuffix(base, used - {x});
      if StartsWith(x, base) && Suffix(x) > rest then Suffix(x) else rest
  }

  /** The maximum is unique, so `MaxSuffix` does not depend on which element
      its definition picks first. */
  lemma {:induction false} MaxSuffixUnique(base: string, used: set<string>, m: nat, n: nat)
    requires Parsable(base, used)
    requires IsMaxSuffix(base, used, m) && IsMaxSuffix(base, used, n)
    ensures m == n
  {
    if m != 0 {
      var x :| x in used && StartsWith(x, base) && Suffix(x) == m;
      assert m <= n;
    }
    if n != 0 {
      var y :| y in used && StartsWith(y, base) && Suffix(y) == n;
      assert n <= m;
    }
  }

  /** Line 95: the prefix followed by `str(next).zfill(3)`. */
  function Compose(base: string, next: nat): (r: string)
    ensures StartsWith(r, base) && SuffixParses(r)
    ensures next < 1000 ==> |r| == |base| + 3 && SuffixParses(r) && Suffix(r) == next
  {
    ComposeParts(base, next);
    base + ZFill(ShowNat(next), 3)
  }

  lemma {:induction false} ComposeParts(base: string, next: nat)
    ensures StartsWith(base + ZFill(ShowNat(next), 3), base)
    ensures SuffixParses(base + ZFill(ShowNat(next), 3))
    ensures next < 1000 ==>
      (Last3(base + ZFill(ShowNat(next), 3)) == ZFill(ShowNat(next), 3) &&
       |ZFill(ShowNat(next), 3)| == 3 && IsDigits(ZFill(ShowNat(next), 3)) &&
       ParseNat(ZFill(ShowNat(next), 3)) == next)
  {
    var digits := ZFill(ShowNat(next), 3);
    var r := base + digits;
    assert r[..|base|] == base;
    PaddedRoundTrip(next, 3);
    assert Last3(r) == r[|r| - 3..];
    assert forall i :: 0 <= i < 3 ==> Last3(r)[i] == digits[|digits| - 3 + i];
    if next < 1000 {
      ShowNatWidth(next);
      PaddedRoundTrip(next, 3);
      assert r[|r| - 3..] == digits;
    }
  }

  /** The id `_generate_new_id(origId)` returns when `used` is the set of ids in
      the frame together with the ids generated so far. */
  ghost function NewId(origId: string, used: set<string>): string
    requires Parsable(DropLast2(origId), used)
  {
    Compose(DropLast2(origId), MaxSuffix(DropLast2(origId), used) + 1)
  }

  /** While the next number stays below 1000 the new id is fresh, keeps the
      prefix, is three characters longer than it, and carries the number one
      above the previous maximum. */
  lemma {:induction false} NewIdFresh(origId: string, used: set<string>)
    requires Parsable(DropLast2(origId), used)
    requires MaxSuffix(DropLast2(origId), used) + 1 < 1000
    ensures NewId(origId, used) !in used
    ensures StartsWith(NewId(origId, used), DropLast2(origId))
    ensures |NewId(origId, used)| == |DropLast2(origId)| + 3
    ensures SuffixParses(NewId(origId, used))
    ensures Suffix(NewId(origId, used)) == MaxSuffix(DropLast2(origId), used) + 1
  {
    var base := DropLast2(origId);
    var m := MaxSuffix(base, used);
    var r := Compose(base, m + 1);
    assert Suffix(r) > m;
  }

  /** Once the previous maximum is 999, the allocator can hand out an id that
      is already in use: with the ids `b999` and `b1000` present for prefix `b`,
      the next id is `b1000` again (its last three digits read as 0). */
  lemma {:induction false} NewIdCollidesAt1000(origId: string, used: set<string>)
    requires origId == "1310101" && used == {"13101999", "131011000"}
    ensures Parsable(DropLast2(origId), used)
    ensures NewId(origId, used) == "131011000" && NewId(origId, used) in used
  {
    var base := DropLast2(origId);
    assert base == "13101";
    CollisionSuffixes(base, used);
    NewIdFromMax(origId, used, 999);
    ShowThousand();
  }

  /** `NewId` composes the prefix with any maximum found. */
  lemma {:induction false} NewIdFromMax(origId: string, used: set<string>, m: nat)
    requires Parsable(DropLast2(origId), used) && IsMaxSuffix(DropLast2(origId), used, m)
    ensures NewId(origId, used) == Compose(DropLast2(origId), m + 1)
  {
    MaxSuffixUnique(DropLast2(origId), used, m, MaxSuffix(DropLast2(origId), used));
  }

  lemma {:induction false} CollisionSuffixes(base: string, used: set<string>)
    requires base == "13101" && used == {"13101999", "131011000"}
    ensures Parsable(base, used) && IsMaxSuffix(base, used, 999)
  {
    assert Last3("13101999") == "999";
    assert Last3("131011000") == "000";
    assert ParseNat("999") == 999 by {
      assert "999"[..2] == "99" && "99"[..1] == "9" && "9"[..0] == "";
    }
    assert ParseNat("000") == 0 by {
      assert "000"[..2] == "00" && "00"[..1] == "0" && "0"[..0] == "";
    }
    assert StartsWith("13101999", base) && StartsWith("131011000", base);
    assert forall x :: x in used ==> x == "13101999" || x == "131011000";
  }

  lemma {:induction false} ShowThousand()
    ensures Compose("13101", 1000) == "131011000"
  {
    assert ShowNat(10) == "10";
    assert ShowNat(100) == "100";
    assert ShowNat(1000) == "1000";
    assert ZFill("1000", 3) == "1000";
  }

  /** Lines 88-93: the loop over the used ids computes the next number,
      `max(suffixes, default=0) + 1`. */
  method NextSuffix(base: string, used: set<string>) returns (next: nat)
    requires Parsable(base, used)
    ensures next >= 1 && IsMaxSuffix(base, used, next - 1)
    ensures next == MaxSuffix(base, used) + 1
  {
    var best: nat := 0;
    var rest := used;
    while rest != {}
      invariant rest <= used
      invariant forall x :: x in used - rest && StartsWith(x, base) ==> Suffix(x) <= best
      invariant best == 0 || exists x :: x in used - rest && StartsWith(x, base) && Suffix(x) == best
      decreases |rest|
    {
      var x :| x in rest;
      if StartsWith(x, base) {
        var s := ParseNat(Last3(x));
        if s > best {
          best := s;
        }
      }
      rest := rest - {x};
    }
    next := best + 1;
    MaxSuffixUnique(base, used, best, MaxSuffix(base, used));
  }
}
