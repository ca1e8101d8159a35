/** Completing the input files of a manual compaction: the smallest set that can be compacted together. */
module SanitizeInputs {
  import opened LevelFiles
  import opened SanitizeSpec

  /** In every good superset of the input. */
  ghost predicate Forced(levels: Levels, input: set<nat>, out: nat, l: nat, i: nat)
    requires out < |levels|
  {
    forall t: set<nat> | Good(levels, t, out) && input <= t :: Chosen(levels, t, l, i)
  }

  /** Every good superset of the input contains the set. */
  ghost predicate Least(levels: Levels, input: set<nat>, out: nat, s: set<nat>)
    requires out < |levels|
  {
    forall t: set<nat> | Good(levels, t, out) && input <= t :: s <= t
  }

  /** Every good superset of the input has a file that is being compacted. */
  ghost predicate Blocked(levels: Levels, busy: set<nat>, input: set<nat>, out: nat)
    requires out < |levels|
  {
    forall t: set<nat> | Good(levels, t, out) && input <= t :: !Idle(levels, busy, t, out + 1)
  }

  lemma ForcedBusy(levels: Levels, busy: set<nat>, input: set<nat>, out: nat, l: nat, i: nat)
    requires l <= out < |levels| && i < |levels[l]| && Forced(levels, input, out, l, i) && levels[l][i].number in busy
    ensures Blocked(levels, busy, input, out)
  {
    hide Good;
    forall t: set<nat> | Good(levels, t, out) && input <= t ensures !Idle(levels, busy, t, out + 1) {
      assert Chosen(levels, t, l, i);
    }
  }

  /** Adding one file changes nothing else. */
  lemma AddOne(levels: Levels, s: set<nat>, l: nat, i: nat, m: nat, j: nat)
    requires NumbersUnique(levels) && l < |levels| && i < |levels[l]|
    ensures Chosen(levels, s + {levels[l][i].number}, m, j) <==> Chosen(levels, s, m, j) || (m == l && j == i)
  {
  }

  /** The set gains files of one level only, and these are in the given positions and not being compacted. */
  ghost predicate Added(levels: Levels, s: set<nat>, t: set<nat>, l: nat, a: nat, b: nat) {
    && s <= t
    && (forall m: nat, j: nat | Chosen(levels, t, m, j) && !Chosen(levels, s, m, j) :: m == l && a <= j < b)
  }

  /** Includes the files at positions `a` to `b` of a level, unless one is being compacted. */
  method IncludeRange(levels: Levels, busy: set<nat>, s: set<nat>, out: nat, l: nat, a: nat, b: nat,
          ghost input: set<nat>)
    returns (ok: bool, t: set<nat>)
    requires WellFormed(levels) && l <= out < |levels| && a <= b <= |levels[l]|
    requires Least(levels, input, out, s) && forall i: nat | a <= i < b :: Forced(levels, input, out, l, i)
    ensures Least(levels, input, out, t) && Added(levels, s, t, l, a, b)
    ensures !ok ==> Blocked(levels, busy, input, out)
    ensures ok ==> forall i: nat | a <= i < b :: Chosen(levels, t, l, i) && levels[l][i].number !in busy
  {
    hide Good;
    t := s;
    for f := a to b
      invariant Least(levels, input, out, t) && Added(levels, s, t, l, a, b)
      invariant forall i: nat | a <= i < f :: Chosen(levels, t, l, i) && levels[l][i].number !in busy
    {
      if levels[l][f].number in busy {
        ForcedBusy(levels, busy, input, out, l, f);
        return false, t;
      }
      AddKeeps(levels, input, out, s, t, l, a, b, f);
      t := t + {levels[l][f].number};
    }
    ok := true;
  }

  lemma AddKeeps(levels: Levels, input: set<nat>, out: nat, s: set<nat>, t: set<nat>, l: nat, a: nat, b: nat, i: nat)
    requires NumbersUnique(levels) && l <= out < |levels| && a <= i < b && i < |levels[l]|
    requires Least(levels, input, out, t) && Added(levels, s, t, l, a, b) && Forced(levels, input, out, l, i)
    ensures Least(levels, input, out, t + {levels[l][i].number})
    ensures Added(levels, s, t + {levels[l][i].number}, l, a, b)
    ensures Chosen(levels, t + {levels[l][i].number}, l, i)
  {
    hide Good;
    forall u: set<nat> | Good(levels, u, out) && input <= u ensures t + {levels[l][i].number} <= u {
      assert Chosen(levels, u, l, i);
    }
    var t' := t + {levels[l][i].number};
    forall m: nat, j: nat | Chosen(levels, t', m, j) && !Chosen(levels, s, m, j) ensures m == l && a <= j < b {
      AddOne(levels, t, l, i, m, j);
    }
  }

  /** Whether two key ranges meet, case by case. */
  function HaveOverlappingKeyRanges(lo: Key, hi: Key, f: File): bool {
    if lo >= f.smallest && lo <= f.largest then true
    else if lo < f.smallest && hi >= f.smallest then true
    else if hi <= f.largest && hi >= f.smallest then true
    else hi > f.largest && lo <= f.largest
  }

  /** The cases come to one comparison at each end. */
  lemma RangesMeet(lo: Key, hi: Key, f: File)
    requires lo <= hi && f.smallest <= f.largest
    ensures HaveOverlappingKeyRanges(lo, hi, f) <==> Overlaps(f, lo, hi)
  {
  }

  /** Includes the files of level `m` that meet the hull. */
  method IncludeOverlapping(levels: Levels, busy: set<nat>, s: set<nat>, out: nat, m: nat, lo: Key, hi: Key,
          ghost input: set<nat>)
    returns (ok: bool, t: set<nat>)
    requires WellFormed(levels) && m <= out < |levels| && Least(levels, input, out, s) && lo <= hi
    requires forall k: nat | k < |levels[m]| && Overlaps(levels[m][k], lo, hi) :: Forced(levels, input, out, m, k)
    ensures Least(levels, input, out, t) && Added(levels, s, t, m, 0, |levels[m]|)
    ensures forall k: nat | Chosen(levels, t, m, k) && !Chosen(levels, s, m, k) ::
              Overlaps(levels[m][k], lo, hi) && levels[m][k].number !in busy
    ensures !ok ==> Blocked(levels, busy, input, out)
    ensures ok ==> Covered(levels, t, m, true, lo, hi)
    ensures ok ==> forall k: nat | k < |levels[m]| && Overlaps(levels[m][k], lo, hi) :: levels[m][k].number !in busy
  {
    hide Good;
    t := s;
    for k := 0 to |levels[m]|
      invariant Least(levels, input, out, t) && Added(levels, s, t, m, 0, |levels[m]|)
      invariant forall j: nat | Chosen(levels, t, m, j) && !Chosen(levels, s, m, j) ::
                  Overlaps(levels[m][j], lo, hi) && levels[m][j].number !in busy
      invariant forall j: nat | j < k && Overlaps(levels[m][j], lo, hi) ::
                  Chosen(levels, t, m, j) && levels[m][j].number !in busy
    {
      var f := levels[m][k];
      assert RangesOk(levels[m]);
      RangesMeet(lo, hi, f);
      if HaveOverlappingKeyRanges(lo, hi, f) {
        if f.number in busy {
          ForcedBusy(levels, busy, input, out, m, k);
          return false, t;
        }
        AddKeeps(levels, input, out, s, t, m, 0, |levels[m]|, k);
        ghost var t0 := t;
        t := t + {f.number};
        forall j: nat | Chosen(levels, t, m, j) && !Chosen(levels, s, m, j)
          ensures Overlaps(levels[m][j], lo, hi) && levels[m][j].number !in busy
        {
          AddOne(levels, t0, m, k, m, j);
        }
      }
    }
    ok := true;
  }

  /** What meets the keys spanned by forced files is forced. */
  lemma SpanForced(levels: Levels, input: set<nat>, out: nat, s: set<nat>, l: nat, lo: Key, hi: Key, m: nat, k: nat)
    requires l <= m && 1 <= m <= out < |levels| && k < |levels[m]| && Least(levels, input, out, s)
    requires Starts(levels, s, l, lo) && Ends(levels, s, l, hi) && Overlaps(levels[m][k], lo, hi)
    ensures Forced(levels, input, out, m, k)
  {
    var f := levels[m][k];
    var a: nat, i: nat :| a <= l && Chosen(levels, s, a, i) && levels[a][i].smallest <= lo;
    var b: nat, j: nat :| b <= l && Chosen(levels, s, b, j) && levels[b][j].largest >= hi;
    forall t: set<nat> | Good(levels, t, out) && input <= t ensures Chosen(levels, t, m, k) {
      assert s <= t;
      assert Chosen(levels, t, a, i) && Chosen(levels, t, b, j);
      assert Starts(levels, t, m, f.largest) && Ends(levels, t, m, f.smallest);
      assert ClosedAt(levels, t, m);
    }
  }

  /** Includes, from level `l` (or 1) down to the output level, the files that meet the hull. */
  method IncludeBelow(levels: Levels, busy: set<nat>, s: set<nat>, out: nat, l: nat, lo: Key, hi: Key,
          ghost input: set<nat>)
    returns (ok: bool, t: set<nat>)
    requires WellFormed(levels) && l <= out < |levels| && Least(levels, input, out, s) && lo <= hi
    requires Starts(levels, s, l, lo) && Ends(levels, s, l, hi)
    ensures Least(levels, input, out, t) && s <= t && SameAbove(levels, s, t, l)
    ensures forall k: nat | Chosen(levels, t, l, k) && !Chosen(levels, s, l, k) ::
              l > 0 && Overlaps(levels[l][k], lo, hi) && levels[l][k].number !in busy
    ensures !ok ==> Blocked(levels, busy, input, out)
    ensures ok ==> forall m | 1 <= m <= out && l <= m :: Covered(levels, t, m, true, lo, hi)
  {
    hide Good, Starts, Ends;
    t := s;
    var m := if l > 1 then l else 1;
    ghost var from := m;
    while m <= out
      invariant from <= m && Least(levels, input, out, t) && s <= t && SameAbove(levels, s, t, l)
      invariant forall k: nat | Chosen(levels, t, l, k) && !Chosen(levels, s, l, k) ::
                  l > 0 && Overlaps(levels[l][k], lo, hi) && levels[l][k].number !in busy
      invariant forall n | from <= n < m && n <= out :: Covered(levels, t, n, true, lo, hi)
    {
      SpanGrows(levels, s, t, l, l, lo);
      SpanGrows(levels, s, t, l, l, hi);
      forall k: nat | k < |levels[m]| && Overlaps(levels[m][k], lo, hi) ensures Forced(levels, input, out, m, k) {
        SpanForced(levels, input, out, t, l, lo, hi, m, k);
      }
      ghost var t0 := t;
      ok, t := IncludeOverlapping(levels, busy, t, out, m, lo, hi, input);
      GrowthKeeps(levels, s, t0, t, l, m);
      CoveredGrows(levels, t0, t, from, m, out, lo, hi);
      if !ok {
        return;
      }
      m := m + 1;
    }
    ok := true;
  }

  lemma GrowthKeeps(levels: Levels, s: set<nat>, t0: set<nat>, t: set<nat>, l: nat, m: nat)
    requires SameAbove(levels, s, t0, l) && l <= m < |levels| && Added(levels, t0, t, m, 0, |levels[m]|)
    ensures SameAbove(levels, s, t, l)
  {
  }

  lemma CoveredGrows(levels: Levels, t0: set<nat>, t: set<nat>, from: nat, m: nat, out: nat, lo: Key, hi: Key)
    requires out < |levels| && t0 <= t && forall n | from <= n < m && n <= out :: Covered(levels, t0, n, true, lo, hi)
    ensures forall n | from <= n < m && n <= out :: Covered(levels, t, n, true, lo, hi)
  {
    forall n | from <= n < m && n <= out ensures Covered(levels, t, n, true, lo, hi) {
      assert Covered(levels, t0, n, true, lo, hi);
    }
  }

  // ---- Levels above 0

  /** First and last chosen file of a level; `first > last` if there is none. */
  method FindIncluded(levels: Levels, s: set<nat>, l: nat) returns (found: bool, first: nat, last: nat)
    requires l < |levels|
    ensures !found ==> forall i: nat | i < |levels[l]| :: !Chosen(levels, s, l, i)
    ensures found ==> first <= last < |levels[l]| && Chosen(levels, s, l, first) && Chosen(levels, s, l, last)
    ensures found ==> forall i: nat | Chosen(levels, s, l, i) :: first <= i <= last
  {
    found, first, last := false, |levels[l]|, 0;
    for f := 0 to |levels[l]|
      invariant !found ==> forall i: nat | i < f :: !Chosen(levels, s, l, i)
      invariant found ==> first <= last < f && Chosen(levels, s, l, first) && Chosen(levels, s, l, last)
      invariant found ==> forall i: nat | i < f && Chosen(levels, s, l, i) :: first <= i <= last
    {
      if levels[l][f].number in s {
        if !found {
          first := f;
        }
        last := f;
        found := true;
      }
    }
  }

  lemma BetweenForced(levels: Levels, input: set<nat>, out: nat, l: nat, a: nat, b: nat, k: nat)
    requires WellFormed(levels) && 1 <= l <= out < |levels| && a <= k <= b < |levels[l]|
    requires Forced(levels, input, out, l, a) && Forced(levels, input, out, l, b)
    ensures Forced(levels, input, out, l, k)
  {
    var f := levels[l][k];
    assert Sorted(levels[l]);
    forall t: set<nat> | Good(levels, t, out) && input <= t ensures Chosen(levels, t, l, k) {
      assert Chosen(levels, t, l, a) && Chosen(levels, t, l, b);
      assert Starts(levels, t, l, f.largest) && Ends(levels, t, l, f.smallest);
      assert ClosedAt(levels, t, l);
    }
  }

  /** A file that shares its boundary key with a forced neighbour is forced. */
  lemma TouchForced(levels: Levels, input: set<nat>, out: nat, l: nat, i: nat, k: nat)
    requires WellFormed(levels) && 1 <= l <= out < |levels| && i < |levels[l]| && k < |levels[l]|
    requires Forced(levels, input, out, l, i) && Overlaps(levels[l][k], levels[l][i].smallest, levels[l][i].largest)
    ensures Forced(levels, input, out, l, k)
  {
    forall t: set<nat> | Good(levels, t, out) && input <= t ensures Chosen(levels, t, l, k) {
      assert Chosen(levels, t, l, i);
      GoodIsClosed(levels, t, out, l, i, l, k);
    }
  }

  /** Extends the chosen files of a level until their neighbours share no key with them. */
  method ExpandToCleanCut(levels: Levels, out: nat, l: nat, a: nat, b: nat, ghost input: set<nat>)
    returns (first: nat, last: nat)
    requires WellFormed(levels) && 1 <= l <= out < |levels| && a <= b < |levels[l]|
    requires Forced(levels, input, out, l, a) && Forced(levels, input, out, l, b)
    ensures first <= a && b <= last < |levels[l]|
    ensures first > 0 ==> levels[l][first - 1].largest < levels[l][first].smallest
    ensures last + 1 < |levels[l]| ==> levels[l][last + 1].smallest > levels[l][last].largest
    ensures Forced(levels, input, out, l, first) && Forced(levels, input, out, l, last)
  {
    hide Good, Forced;
    var files := levels[l];
    assert Sorted(files);
    first, last := a, b;
    while first > 0
      invariant first <= a && Forced(levels, input, out, l, first)
    {
      if files[first - 1].largest < files[first].smallest {
        break;
      }
      TouchForced(levels, input, out, l, first, first - 1);
      first := first - 1;
    }
    while last < |files| - 1
      invariant b <= last < |files| && Forced(levels, input, out, l, last)
    {
      if files[last + 1].smallest > files[last].largest {
        break;
      }
      TouchForced(levels, input, out, l, last, last + 1);
      last := last + 1;
    }
  }

  /** The files of a level that end up chosen lie within the hull of everything chosen so far. */
  lemma LevelHull(levels: Levels, s: set<nat>, t: set<nat>, out: nat, l: nat, first: nat, last: nat, some: bool,
          lo: Key, hi: Key, lo': Key, hi': Key)
    requires WellFormed(levels) && 1 <= l <= out < |levels| && first <= last < |levels[l]|
    requires Hull(levels, s, l, some, lo, hi) && Covered(levels, s, l, some, lo, hi) && s <= t
    requires SameAbove(levels, s, t, l)
    requires forall i: nat | Chosen(levels, s, l, i) :: first <= i <= last
    requires first > 0 ==> levels[l][first - 1].largest < levels[l][first].smallest
    requires last + 1 < |levels[l]| ==> levels[l][last + 1].smallest > levels[l][last].largest
    requires Chosen(levels, t, l, first) && Chosen(levels, t, l, last)
    requires forall i: nat | Chosen(levels, t, l, i) :: first <= i <= last || Overlaps(levels[l][i], lo', hi')
    requires lo' == if some && lo < levels[l][first].smallest then lo else levels[l][first].smallest
    requires hi' == if some && hi > levels[l][last].largest then hi else levels[l][last].largest
    ensures Hull(levels, t, l + 1, true, lo', hi')
  {
    var files := levels[l];
    assert Sorted(files);
    if some {
      HullNotEmpty(levels, s, l, lo, hi);
    }
    forall i: nat | Chosen(levels, t, l, i) ensures lo' <= files[i].smallest && files[i].largest <= hi' {
      OneInHull(levels, s, l, first, last, i, some, lo, hi, lo', hi');
    }
    LevelSpan(levels, s, t, l, first, last, some, lo, hi, lo', hi');
  }

  lemma HullNotEmpty(levels: Levels, s: set<nat>, n: nat, lo: Key, hi: Key)
    requires WellFormed(levels) && Hull(levels, s, n, true, lo, hi)
    ensures lo <= hi
  {
    var l: nat, i: nat :| l <= n - 1 && Chosen(levels, s, l, i) && levels[l][i].smallest <= lo;
    assert RangesOk(levels[l]);
  }

  lemma OneInHull(levels: Levels, s: set<nat>, l: nat, first: nat, last: nat, i: nat, some: bool, lo: Key, hi: Key,
          lo': Key, hi': Key)
    requires l < |levels| && Sorted(levels[l]) && first <= last < |levels[l]| && i < |levels[l]|
    requires Covered(levels, s, l, some, lo, hi) && (some ==> lo <= hi)
    requires forall i: nat | Chosen(levels, s, l, i) :: first <= i <= last
    requires first > 0 ==> levels[l][first - 1].largest < levels[l][first].smallest
    requires last + 1 < |levels[l]| ==> levels[l][last + 1].smallest > levels[l][last].largest
    requires first <= i <= last || Overlaps(levels[l][i], lo', hi')
    requires lo' == if some && lo < levels[l][first].smallest then lo else levels[l][first].smallest
    requires hi' == if some && hi > levels[l][last].largest then hi else levels[l][last].largest
    ensures lo' <= levels[l][i].smallest && levels[l][i].largest <= hi'
  {
    var files := levels[l];
    if i < first {
      assert files[i].largest < files[first].smallest;
      assert !Chosen(levels, s, l, i);
    } else if i > last {
      assert files[i].smallest > files[last].largest;
      assert !Chosen(levels, s, l, i);
    }
  }

  lemma LevelSpan(levels: Levels, s: set<nat>, t: set<nat>, l: nat, first: nat, last: nat, some: bool, lo: Key, hi: Key,
          lo': Key, hi': Key)
    requires 1 <= l < |levels| && s <= t && Hull(levels, s, l, some, lo, hi) && Chosen(levels, t, l, first)
    requires Chosen(levels, t, l, last)
    requires lo' == if some && lo < levels[l][first].smallest then lo else levels[l][first].smallest
    requires hi' == if some && hi > levels[l][last].largest then hi else levels[l][last].largest
    ensures Starts(levels, t, l, lo') && Ends(levels, t, l, hi')
  {
    if some {
      SpanGrows(levels, s, t, l - 1, l, lo);
      SpanGrows(levels, s, t, l - 1, l, hi);
    }
  }

  /** Treats one level above 0. */
  method SanitizeLevel(levels: Levels, busy: set<nat>, s: set<nat>, out: nat, l: nat, some: bool, lo: Key, hi: Key,
          ghost input: set<nat>)
    returns (ok: bool, t: set<nat>, some': bool, lo': Key, hi': Key)
    requires WellFormed(levels) && 1 <= l <= out < |levels|
    requires Progress(levels, busy, s, out, l, some, lo, hi) && Least(levels, input, out, s)
    ensures s <= t && Least(levels, input, out, t)
    ensures ok ==> Progress(levels, busy, t, out, l + 1, some', lo', hi')
    ensures !ok ==> Blocked(levels, busy, input, out)
  {
    hide Good, Forced, Least, Blocked, Hull, Starts, Ends, ClosedAt, ClosedAtZero, Idle;
    ok, t, some', lo', hi' := true, s, some, lo, hi;
    var found, first, last := FindIncluded(levels, s, l);
    if !found {
      SkipProgress(levels, busy, s, out, l, some, lo, hi);
      return;
    }
    ChosenForced(levels, input, out, s, l, first);
    ChosenForced(levels, input, out, s, l, last);
    first, last := ExpandToCleanCut(levels, out, l, first, last, input);
    forall i: nat | first <= i < last + 1 ensures Forced(levels, input, out, l, i) {
      BetweenForced(levels, input, out, l, first, last, i);
    }
    ok, t := IncludeRange(levels, busy, s, out, l, first, last + 1, input);
    if !ok {
      return;
    }
    some' := true;
    lo' := if some && lo < levels[l][first].smallest then lo else levels[l][first].smallest;
    hi' := if some && hi > levels[l][last].largest then hi else levels[l][last].largest;
    LevelSpan(levels, s, t, l, first, last, some, lo, hi, lo', hi');
    assert Sorted(levels[l]);
    ghost var t1 := t;
    ok, t := IncludeBelow(levels, busy, t, out, l, lo', hi', input);
    if ok {
      RangeSame(levels, s, t1, t, l, first, last + 1);
      LevelHull(levels, s, t, out, l, first, last, some, lo, hi, lo', hi');
      SettledProgress(levels, busy, s, t, out, l, some, lo, hi, lo', hi');
    }
  }

  lemma ChosenForced(levels: Levels, input: set<nat>, out: nat, s: set<nat>, l: nat, i: nat)
    requires out < |levels| && Least(levels, input, out, s) && Chosen(levels, s, l, i)
    ensures Forced(levels, input, out, l, i)
  {
    hide Good;
  }

  lemma RangeSame(levels: Levels, s: set<nat>, t1: set<nat>, t: set<nat>, l: nat, a: nat, b: nat)
    requires Added(levels, s, t1, l, a, b) && SameAbove(levels, t1, t, l) && t1 <= t
    ensures s <= t && SameAbove(levels, s, t, l)
  {
  }

  // ---- Level 0

  lemma ZeroForced(levels: Levels, input: set<nat>, out: nat, a: nat, b: nat, k: nat)
    requires out < |levels| && a <= k <= b < |levels[0]| && Forced(levels, input, out, 0, a)
    requires out > 0 || Forced(levels, input, out, 0, b)
    ensures Forced(levels, input, out, 0, k)
  {
    hide ClosedAt;
    forall t: set<nat> | Good(levels, t, out) && input <= t ensures Chosen(levels, t, 0, k) {
      assert Chosen(levels, t, 0, a);
      if out == 0 && k < b {
        assert Chosen(levels, t, 0, b);
        assert ChosenAfter(levels, t, k);
      }
    }
  }

  /** The keys spanned by the files at positions `a` to `b` of level 0. */
  method ZeroHull(levels: Levels, s: set<nat>, a: nat, b: nat) returns (lo: Key, hi: Key)
    requires WellFormed(levels) && |levels| > 0 && a < b <= |levels[0]|
    requires forall i: nat | a <= i < b :: Chosen(levels, s, 0, i)
    ensures forall i: nat | a <= i < b :: lo <= levels[0][i].smallest && levels[0][i].largest <= hi
    ensures Starts(levels, s, 0, lo) && Ends(levels, s, 0, hi) && lo <= hi
  {
    var files := levels[0];
    assert RangesOk(files);
    lo, hi := files[a].smallest, files[a].largest;
    ghost var x, y := a, a;
    for f := a to b
      invariant a <= x < b && a <= y < b && lo == files[x].smallest && hi == files[y].largest
      invariant forall i: nat | a <= i < f :: lo <= files[i].smallest && files[i].largest <= hi
    {
      if lo > files[f].smallest {
        lo, x := files[f].smallest, f;
      }
      if hi < files[f].largest {
        hi, y := files[f].largest, f;
      }
    }
    assert Chosen(levels, s, 0, x) && Chosen(levels, s, 0, y);
  }

  /** Treats level 0: with a deeper output level, every file older than a chosen one comes along. */
  method SanitizeZero(levels: Levels, busy: set<nat>, s: set<nat>, out: nat, ghost input: set<nat>)
    returns (ok: bool, t: set<nat>, some: bool, lo: Key, hi: Key)
    requires WellFormed(levels) && out < |levels| && Least(levels, input, out, s)
    requires Progress(levels, busy, s, out, 0, false, 0, 0)
    ensures s <= t && Least(levels, input, out, t)
    ensures ok ==> Progress(levels, busy, t, out, 1, some, lo, hi)
    ensures !ok ==> Blocked(levels, busy, input, out)
  {
    hide Good, Forced, Least, Blocked, Starts, Ends, ClosedAt, Idle;
    ok, t, some, lo, hi := true, s, false, 0, 0;
    var found, first, last := FindIncluded(levels, s, 0);
    if !found {
      SkipProgress(levels, busy, s, out, 0, false, 0, 0);
      return;
    }
    ChosenForced(levels, input, out, s, 0, first);
    ChosenForced(levels, input, out, s, 0, last);
    if out > 0 {
      last := |levels[0]| - 1;
    }
    forall i: nat | first <= i < last + 1 ensures Forced(levels, input, out, 0, i) {
      ZeroForced(levels, input, out, first, last, i);
    }
    ok, t := IncludeRange(levels, busy, s, out, 0, first, last + 1, input);
    if !ok {
      return;
    }
    some := true;
    lo, hi := ZeroHull(levels, t, first, last + 1);
    ghost var t1 := t;
    ok, t := IncludeBelow(levels, busy, t, out, 0, lo, hi, input);
    if ok {
      RangeSame(levels, s, t1, t, 0, first, last + 1);
      SpanGrows(levels, t1, t, 0, 0, lo);
      SpanGrows(levels, t1, t, 0, 0, hi);
      ZeroSettled(levels, busy, s, t1, t, out, first, last, lo, hi);
      SettledProgress(levels, busy, s, t, out, 0, false, 0, 0, lo, hi);
    }
  }

  lemma ZeroSettled(levels: Levels, busy: set<nat>, s: set<nat>, t1: set<nat>, t: set<nat>, out: nat, first: nat,
          last: nat, lo: Key, hi: Key)
    requires out < |levels| && first <= last < |levels[0]| && (out > 0 ==> last == |levels[0]| - 1)
    requires Added(levels, s, t1, 0, first, last + 1) && (forall i: nat | Chosen(levels, s, 0, i) :: first <= i <= last)
    requires forall i: nat | Chosen(levels, t, 0, i) :: Chosen(levels, t1, 0, i)
    requires t1 <= t
    requires forall i: nat | first <= i < last + 1 :: Chosen(levels, t1, 0, i) && levels[0][i].number !in busy
    requires forall i: nat | first <= i < last + 1 :: lo <= levels[0][i].smallest && levels[0][i].largest <= hi
    requires Starts(levels, t, 0, lo) && Ends(levels, t, 0, hi)
    ensures Hull(levels, t, 1, true, lo, hi) && ClosedAtZero(levels, t, out)
    ensures forall i: nat | Chosen(levels, t, 0, i) :: levels[0][i].number !in busy
  {
    hide Starts, Ends;
    forall i: nat | i < |levels[0]| ensures Chosen(levels, t, 0, i) <==> first <= i <= last {
      if Chosen(levels, t, 0, i) && !Chosen(levels, s, 0, i) {
        assert Chosen(levels, t1, 0, i);
      }
    }
  }

  // ---- All levels

  /** Completes the input to the smallest set that can be compacted to the output level. It fails exactly when every
      such set has a file that is being compacted. */
  method SanitizeForAllLevels(levels: Levels, busy: set<nat>, input: set<nat>, out: nat) returns (ok: bool, t: set<nat>)
    requires WellFormed(levels) && out < |levels|
    ensures ok ==> input <= t && Good(levels, t, out) && Least(levels, input, out, t) && Idle(levels, busy, t, out + 1)
    ensures !ok ==> Blocked(levels, busy, input, out)
  {
    hide Good, Forced, Blocked, Hull, Starts, Ends, ClosedAt, ClosedAtZero, Idle;
    StartProgress(levels, busy, input, out);
    var some, lo, hi;
    ok, t, some, lo, hi := SanitizeZero(levels, busy, input, out, input);
    if !ok {
      return;
    }
    var l := 1;
    while l <= out
      invariant 1 <= l <= out + 1 && input <= t && Least(levels, input, out, t)
      invariant Progress(levels, busy, t, out, l, some, lo, hi)
    {
      ok, t, some, lo, hi := SanitizeLevel(levels, busy, t, out, l, some, lo, hi, input);
      if !ok {
        return;
      }
      l := l + 1;
    }
    EndProgress(levels, busy, t, out, some, lo, hi);
    ok := true;
  }

  lemma StartProgress(levels: Levels, busy: set<nat>, input: set<nat>, out: nat)
    requires out < |levels|
    ensures Progress(levels, busy, input, out, 0, false, 0, 0) && Least(levels, input, out, input)
  {
  }

  lemma EndProgress(levels: Levels, busy: set<nat>, t: set<nat>, out: nat, some: bool, lo: Key, hi: Key)
    requires out < |levels| && Progress(levels, busy, t, out, out + 1, some, lo, hi)
    ensures Good(levels, t, out) && Idle(levels, busy, t, out + 1)
  {
  }

  // ---- The whole check

  datatype Status = Ok | InvalidArgument | Aborted

  ghost predicate Exists(levels: Levels, n: nat) {
    exists l: nat, i: nat | l < |levels| && i < |levels[l]| :: levels[l][i].number == n
  }

  /** A number is looked up through the levels. */
  method FindFile(levels: Levels, busy: set<nat>, n: nat) returns (found: bool, taken: bool)
    requires NumbersUnique(levels)
    ensures found <==> Exists(levels, n)
    ensures found ==>
              forall l: nat, i: nat | l < |levels| && i < |levels[l]| && levels[l][i].number == n ::
                (levels[l][i].number in busy) == taken
  {
    for l := 0 to |levels|
      invariant forall m: nat, i: nat | m < l && i < |levels[m]| :: levels[m][i].number != n
    {
      for i := 0 to |levels[l]|
        invariant forall j: nat | j < i :: levels[l][j].number != n
      {
        if levels[l][i].number == n {
          return true, levels[l][i].number in busy;
        }
      }
    }
    return false, false;
  }

  method Sanitize(levels: Levels, busy: set<nat>, input: set<nat>, out: int, maxOut: int)
    returns (status: Status, t: set<nat>)
    requires WellFormed(levels)
    ensures (out < 0 || out >= |levels| || out > maxOut || input == {}) ==> status.InvalidArgument?
    ensures status.Ok? ==>
              && 0 <= out < |levels| && out <= maxOut && input != {} && input <= t
              && Good(levels, t, out) && Least(levels, input, out, t) && Idle(levels, busy, t, |levels|)
              && forall n | n in t :: Exists(levels, n)
    ensures status.Aborted? ==>
              0 <= out < |levels| && (Blocked(levels, busy, input, out) || !Idle(levels, busy, t, |levels|))
    ensures status.InvalidArgument? && 0 <= out < |levels| && out <= maxOut && input != {} ==>
              exists n | n in t :: !Exists(levels, n)
  {
    hide Good, Least, Blocked, Exists;
    t := input;
    if out >= |levels| || out > maxOut || out < 0 || input == {} {
      return InvalidArgument, t;
    }
    var ok;
    ok, t := SanitizeForAllLevels(levels, busy, input, out);
    if !ok {
      return Aborted, t;
    }
    var rest := t;
    while rest != {}
      invariant rest <= t && forall n | n in t && n !in rest :: Exists(levels, n)
      invariant forall l: nat, i: nat | Chosen(levels, t, l, i) && levels[l][i].number !in rest ::
                  levels[l][i].number !in busy
      decreases |rest|
    {
      var n :| n in rest;
      var found, taken := FindFile(levels, busy, n);
      if !found {
        return InvalidArgument, t;
      }
      if taken {
        BusyChosen(levels, busy, t, n);
        return Aborted, t;
      }
      rest := rest - {n};
    }
    status := Ok;
  }

  lemma BusyChosen(levels: Levels, busy: set<nat>, t: set<nat>, n: nat)
    requires n in t && Exists(levels, n)
    requires forall l: nat, i: nat | l < |levels| && i < |levels[l]| && levels[l][i].number == n ::
               levels[l][i].number in busy
    ensures !Idle(levels, busy, t, |levels|)
  {
    var l: nat, i: nat :| l < |levels| && i < |levels[l]| && levels[l][i].number == n;
    assert Chosen(levels, t, l, i);
  }
}
