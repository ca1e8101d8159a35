/** Which files a manual compaction has to take along. */
module SanitizeSpec {

  import opened LevelFiles

  predicate NumbersUnique(levels: Levels) {
    forall l, i, m, j | 0 <= l < |levels| && 0 <= i < |levels[l]| && 0 <= m < |levels| && 0 <= j < |levels[m]|
                        && levels[l][i].number == levels[m][j].number :: l == m && i == j
  }

  predicate WellFormed(levels: Levels) {
    && (forall l | 0 <= l < |levels| :: RangesOk(levels[l]))
    && (forall l | 1 <= l < |levels| :: Sorted(levels[l]))
    && NumbersUnique(levels)
  }

  /** File `i` of level `l` is in the set. */
  predicate Chosen(levels: Levels, s: set<nat>, l: nat, i: nat) {
    l < |levels| && i < |levels[l]| && levels[l][i].number in s
  }

  /** With level 0 moving down, a chosen file takes all older files of level 0 along; otherwise it takes those
      between chosen ones. */
  ghost predicate ClosedAtZero(levels: Levels, s: set<nat>, out: nat) {
    forall i: nat, j: nat | Chosen(levels, s, 0, i) && i < j && j < |levels[0]|
                            && (out > 0 || ChosenAfter(levels, s, j)) :: Chosen(levels, s, 0, j)
  }

  ghost predicate ChosenAfter(levels: Levels, s: set<nat>, j: nat) {
    exists k: nat :: j < k && Chosen(levels, s, 0, k)
  }

  /** Some chosen file at level `m` or above starts at or before `key`. */
  ghost predicate Starts(levels: Levels, s: set<nat>, m: nat, key: Key) {
    exists l: nat, i: nat | l <= m && Chosen(levels, s, l, i) :: levels[l][i].smallest <= key
  }

  /** Some chosen file at level `m` or above ends at or after `key`. */
  ghost predicate Ends(levels: Levels, s: set<nat>, m: nat, key: Key) {
    exists l: nat, i: nat | l <= m && Chosen(levels, s, l, i) :: levels[l][i].largest >= key
  }

  /** Every file of level `m` that meets the keys spanned by the chosen files at that level or above is chosen. */
  ghost predicate ClosedAt(levels: Levels, s: set<nat>, m: nat)
    requires m < |levels|
  {
    forall k: nat | k < |levels[m]| && Starts(levels, s, m, levels[m][k].largest)
                    && Ends(levels, s, m, levels[m][k].smallest) ::
      Chosen(levels, s, m, k)
  }

  /** A set that can be compacted together to level `out`. */
  ghost predicate Good(levels: Levels, s: set<nat>, out: nat)
    requires out < |levels|
  {
    && ClosedAtZero(levels, s, out)
    && forall m | 1 <= m <= out :: ClosedAt(levels, s, m)
  }

  /** No chosen file at a level below `n` is being compacted. */
  ghost predicate Idle(levels: Levels, busy: set<nat>, s: set<nat>, n: nat) {
    forall l: nat, i: nat | l < n && Chosen(levels, s, l, i) :: levels[l][i].number !in busy
  }

  /** The keys spanned by the chosen files at levels before `n`. */
  ghost predicate Hull(levels: Levels, s: set<nat>, n: nat, some: bool, lo: Key, hi: Key) {
    && (forall l: nat, i: nat | l < n && Chosen(levels, s, l, i) ::
          some && lo <= levels[l][i].smallest && levels[l][i].largest <= hi)
    && (some ==> n > 0 && Starts(levels, s, n - 1, lo) && Ends(levels, s, n - 1, hi))
  }

  /** Closure says that a chosen file brings along every file from its level down to the output level, level 0
      apart, with which it shares a key. */
  lemma GoodIsClosed(levels: Levels, s: set<nat>, out: nat, l: nat, i: nat, m: nat, k: nat)
    requires out < |levels| && Good(levels, s, out) && Chosen(levels, s, l, i)
    requires l <= m && 1 <= m <= out && k < |levels[m]|
    requires Overlaps(levels[m][k], levels[l][i].smallest, levels[l][i].largest)
    ensures Chosen(levels, s, m, k)
  {
    assert ClosedAt(levels, s, m);
    assert Starts(levels, s, m, levels[m][k].largest);
    assert Ends(levels, s, m, levels[m][k].smallest);
  }

  /** A bigger set spans more. */
  lemma SpanGrows(levels: Levels, s: set<nat>, t: set<nat>, m: nat, n: nat, key: Key)
    requires s <= t && m <= n
    ensures Starts(levels, s, m, key) ==> Starts(levels, t, n, key)
    ensures Ends(levels, s, m, key) ==> Ends(levels, t, n, key)
  {
    if Starts(levels, s, m, key) {
      var l: nat, i: nat :| l <= m && Chosen(levels, s, l, i) && levels[l][i].smallest <= key;
      assert Chosen(levels, t, l, i);
    }
    if Ends(levels, s, m, key) {
      var l: nat, i: nat :| l <= m && Chosen(levels, s, l, i) && levels[l][i].largest >= key;
      assert Chosen(levels, t, l, i);
    }
  }

  lemma HullSpan(levels: Levels, s: set<nat>, n: nat, some: bool, lo: Key, hi: Key, key: Key)
    requires Hull(levels, s, n, some, lo, hi) && n > 0
    ensures Starts(levels, s, n - 1, key) <==> some && lo <= key
    ensures Ends(levels, s, n - 1, key) <==> some && key <= hi
  {
    if some && lo <= key {
      var l: nat, i: nat :| l <= n - 1 && Chosen(levels, s, l, i) && levels[l][i].smallest <= lo;
      assert levels[l][i].smallest <= key;
    }
    if some && key <= hi {
      var l: nat, i: nat :| l <= n - 1 && Chosen(levels, s, l, i) && levels[l][i].largest >= hi;
      assert levels[l][i].largest >= key;
    }
  }

  // ---- Progress of the closure, level by level

  /** Files of level `m` that meet the hull are chosen. */
  ghost predicate Covered(levels: Levels, s: set<nat>, m: nat, some: bool, lo: Key, hi: Key)
    requires m < |levels|
  {
    some ==> forall k: nat | k < |levels[m]| && Overlaps(levels[m][k], lo, hi) :: Chosen(levels, s, m, k)
  }

  /** Levels before `l` are settled, and the levels from `l` on take what meets them. */
  ghost predicate Progress(levels: Levels, busy: set<nat>, s: set<nat>, out: nat, l: nat, some: bool, lo: Key, hi: Key)
    requires out < |levels| && l <= out + 1
  {
    && Hull(levels, s, l, some, lo, hi)
    && (forall m | 1 <= m <= out && l <= m :: Covered(levels, s, m, some, lo, hi))
    && (forall m | 1 <= m < l :: ClosedAt(levels, s, m))
    && (l > 0 ==> ClosedAtZero(levels, s, out))
    && Idle(levels, busy, s, l)
  }

  /** The sets agree on levels before `n`. */
  ghost predicate SameAbove(levels: Levels, s: set<nat>, t: set<nat>, n: nat) {
    forall l: nat, i: nat | l < n :: Chosen(levels, s, l, i) <==> Chosen(levels, t, l, i)
  }

  lemma SameClosed(levels: Levels, s: set<nat>, t: set<nat>, n: nat, m: nat)
    requires SameAbove(levels, s, t, n) && m < n && m < |levels| && ClosedAt(levels, s, m) && s <= t
    ensures ClosedAt(levels, t, m)
  {
    forall k: nat | k < |levels[m]| && Starts(levels, t, m, levels[m][k].largest)
                    && Ends(levels, t, m, levels[m][k].smallest)
      ensures Chosen(levels, t, m, k)
    {
      SameSpan(levels, s, t, n, m, levels[m][k].largest);
      SameSpan(levels, s, t, n, m, levels[m][k].smallest);
      assert Chosen(levels, s, m, k);
    }
  }

  lemma SameSpan(levels: Levels, s: set<nat>, t: set<nat>, n: nat, m: nat, key: Key)
    requires SameAbove(levels, s, t, n) && m < n
    ensures Starts(levels, t, m, key) ==> Starts(levels, s, m, key)
    ensures Ends(levels, t, m, key) ==> Ends(levels, s, m, key)
  {
    if Starts(levels, t, m, key) {
      var l: nat, i: nat :| l <= m && Chosen(levels, t, l, i) && levels[l][i].smallest <= key;
      assert Chosen(levels, s, l, i);
    }
    if Ends(levels, t, m, key) {
      var l: nat, i: nat :| l <= m && Chosen(levels, t, l, i) && levels[l][i].largest >= key;
      assert Chosen(levels, s, l, i);
    }
  }

  lemma SameZero(levels: Levels, s: set<nat>, t: set<nat>, n: nat, out: nat)
    requires SameAbove(levels, s, t, n) && n > 0 && ClosedAtZero(levels, s, out)
    ensures ClosedAtZero(levels, t, out)
  {
    forall i: nat, j: nat | Chosen(levels, t, 0, i) && i < j && j < |levels[0]|
                            && (out > 0 || ChosenAfter(levels, t, j))
      ensures Chosen(levels, t, 0, j)
    {
      assert Chosen(levels, s, 0, i);
      if out == 0 {
        var k: nat :| j < k && Chosen(levels, t, 0, k);
        assert Chosen(levels, s, 0, k);
      }
      assert Chosen(levels, s, 0, j);
    }
  }

  /** What the treatment of one level leaves. */
  ghost predicate Settled(levels: Levels, busy: set<nat>, s: set<nat>, t: set<nat>, out: nat, l: nat, lo: Key, hi: Key)
    requires l <= out < |levels|
  {
    && s <= t && SameAbove(levels, s, t, l)
    && Hull(levels, t, l + 1, true, lo, hi)
    && (forall m | 1 <= m <= out && l <= m :: Covered(levels, t, m, true, lo, hi))
    && (forall i: nat | Chosen(levels, t, l, i) :: levels[l][i].number !in busy)
  }

  lemma SettledProgress(levels: Levels, busy: set<nat>, s: set<nat>, t: set<nat>, out: nat, l: nat, some: bool, lo: Key,
          hi: Key, lo': Key, hi': Key)
    requires l <= out < |levels| && Progress(levels, busy, s, out, l, some, lo, hi)
    requires Settled(levels, busy, s, t, out, l, lo', hi')
    requires l == 0 ==> ClosedAtZero(levels, t, out)
    ensures Progress(levels, busy, t, out, l + 1, true, lo', hi')
  {
    hide Hull, ClosedAtZero;
    forall m | 1 <= m < l + 1 ensures ClosedAt(levels, t, m) {
      if m < l {
        hide ClosedAt;
        SameClosed(levels, s, t, l, m);
      } else {
        SettledClosed(levels, busy, t, l, lo', hi');
      }
    }
    if l > 0 {
      SameZero(levels, s, t, l, out);
    }
  }

  lemma SettledClosed(levels: Levels, busy: set<nat>, t: set<nat>, l: nat, lo: Key, hi: Key)
    requires l < |levels| && Hull(levels, t, l + 1, true, lo, hi) && Covered(levels, t, l, true, lo, hi)
    ensures ClosedAt(levels, t, l)
  {
    hide Hull, Starts, Ends;
    forall k: nat | k < |levels[l]| && Starts(levels, t, l, levels[l][k].largest)
                    && Ends(levels, t, l, levels[l][k].smallest)
      ensures Chosen(levels, t, l, k)
    {
      HullSpan(levels, t, l + 1, true, lo, hi, levels[l][k].largest);
      HullSpan(levels, t, l + 1, true, lo, hi, levels[l][k].smallest);
    }
  }

  /** A level without chosen files. */
  lemma SkipProgress(levels: Levels, busy: set<nat>, s: set<nat>, out: nat, l: nat, some: bool, lo: Key, hi: Key)
    requires l <= out < |levels| && Progress(levels, busy, s, out, l, some, lo, hi)
    requires forall i: nat | i < |levels[l]| :: !Chosen(levels, s, l, i)
    ensures Progress(levels, busy, s, out, l + 1, some, lo, hi)
  {
    hide Starts, Ends;
    if some {
      SpanGrows(levels, s, s, l - 1, l, lo);
      SpanGrows(levels, s, s, l - 1, l, hi);
    }
    assert Hull(levels, s, l + 1, some, lo, hi);
    if l > 0 {
      forall k: nat | k < |levels[l]| && Starts(levels, s, l, levels[l][k].largest)
                      && Ends(levels, s, l, levels[l][k].smallest)
        ensures Chosen(levels, s, l, k)
      {
        HullSpan(levels, s, l + 1, some, lo, hi, levels[l][k].largest);
        HullSpan(levels, s, l + 1, some, lo, hi, levels[l][k].smallest);
        assert Covered(levels, s, l, some, lo, hi);
      }
    }
  }
}
