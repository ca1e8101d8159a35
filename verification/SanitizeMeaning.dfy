/** Compacting a good set of files to the output level changes no lookup and keeps the files of that level apart. */
module SanitizeMeaning {
  import opened Options
  import opened LevelFiles
  import opened SanitizeSpec
  import opened Lookups

  // ---- The compaction

  /** Files that end before `lo`, or start after `hi`, in order. */
  function Before(files: seq<File>, lo: Key): seq<File> {
    if files == [] then [] else (if files[0].largest < lo then [files[0]] else []) + Before(files[1..], lo)
  }

  function After(files: seq<File>, hi: Key): seq<File> {
    if files == [] then [] else (if files[0].smallest > hi then [files[0]] else []) + After(files[1..], hi)
  }

  /** The levels once the chosen files are replaced by `outputs` at the output level. */
  function Compacted(levels: Levels, s: set<nat>, out: nat, lo: Key, hi: Key, outputs: seq<File>): Levels
    requires out < |levels|
  {
    var stay := Select(levels[out], s, false);
    SelectLevels(levels[..out], s, false) + [Before(stay, lo) + outputs + After(stay, hi)] + levels[out + 1..]
  }

  /** Files apart from an interval lie before or after it. */
  ghost predicate Apart(files: seq<File>, lo: Key, hi: Key) {
    forall i | 0 <= i < |files| :: files[i].largest < lo || files[i].smallest > hi
  }

  lemma {:induction false} AllAfter(files: seq<File>, lo: Key, hi: Key)
    requires RangesOk(files) && lo <= hi && forall i | 0 <= i < |files| :: files[i].smallest > hi
    ensures Before(files, lo) == [] && After(files, hi) == files
    decreases |files|
  {
    if files != [] {
      assert forall i | 0 <= i < |files[1..]| :: files[1..][i] == files[i + 1];
      assert files[0].smallest > hi;
      AllAfter(files[1..], lo, hi);
    }
  }

  lemma RestApart(files: seq<File>, lo: Key, hi: Key)
    requires files != [] && Sorted(files) && Apart(files, lo, hi)
    ensures Sorted(files[1..]) && Apart(files[1..], lo, hi)
    ensures files[0].smallest <= files[0].largest
  {
  }

  lemma {:induction false} SplitAround(files: seq<File>, lo: Key, hi: Key)
    requires Sorted(files) && lo <= hi && Apart(files, lo, hi)
    ensures Before(files, lo) + After(files, hi) == files
    decreases |files|
  {
    if files != [] {
      var rest := files[1..];
      if files[0].largest < lo {
        RestApart(files, lo, hi);
        hide Sorted, RangesOk, Apart;
        SplitAround(rest, lo, hi);
        assert files == [files[0]] + rest;
        assert [files[0]] + Before(rest, lo) + After(rest, hi) == [files[0]] + (Before(rest, lo) + After(rest, hi));
      } else {
        assert files[0].smallest > hi;
        hide Before, After;
        AllAfter(files, lo, hi);
      }
    }
  }

  lemma {:induction false} BeforeIn(files: seq<File>, lo: Key, hi: Key)
    ensures forall i | 0 <= i < |Before(files, lo)| ::
              Before(files, lo)[i].largest < lo && Before(files, lo)[i] in files
    ensures forall i | 0 <= i < |After(files, hi)| :: After(files, hi)[i].smallest > hi && After(files, hi)[i] in files
    decreases |files|
  {
    if files != [] {
      BeforeIn(files[1..], lo, hi);
    }
  }

  /** Where the outputs go, the other files of the level leave room for them. */
  lemma LevelLookup(files: seq<File>, outputs: seq<File>, lo: Key, hi: Key, data: Data, k: Key)
    requires Sorted(files) && lo <= hi && Apart(files, lo, hi)
    requires forall i | 0 <= i < |files| :: FileData(files[i], data)
    requires LookupIn(outputs, data, k).Some? ==> lo <= k <= hi
    ensures LookupIn(Before(files, lo) + outputs + After(files, hi), data, k) ==
            OrElse(LookupIn(outputs, data, k), LookupIn(files, data, k))
  {
    var a, b := Before(files, lo), After(files, hi);
    SplitAround(files, lo, hi);
    LookupConcat(a, b, data, k);
    LookupConcat(a + outputs, b, data, k);
    LookupConcat(a, outputs, data, k);
    if LookupIn(outputs, data, k).Some? {
      BeforeIn(files, lo, hi);
      forall i | 0 <= i < |a| ensures !Has(a[i], data, k) {
        assert FileData(a[i], data);
      }
      LookupNone(a, data, k);
    }
  }

  /** What the compaction of a set does: its outputs lie within the keys `lo` to `hi` that the chosen files span, and
      hold for every key what a newest-first lookup in the chosen files finds. */
  ghost predicate Merges(levels: Levels, s: set<nat>, out: nat, lo: Key, hi: Key, outputs: seq<File>, data: Data)
    requires out < |levels|
  {
    && Sorted(outputs) && (forall i | 0 <= i < |outputs| :: lo <= outputs[i].smallest && outputs[i].largest <= hi)
    && (forall k: Key :: LookupIn(outputs, data, k) == Lookup(SelectLevels(levels[..out + 1], s, true), data, k))
  }

  /** Files of the output level that stay are apart from the keys of the compaction. */
  lemma StayApart(levels: Levels, s: set<nat>, out: nat, lo: Key, hi: Key)
    requires 1 <= out < |levels| && Good(levels, s, out) && Hull(levels, s, out + 1, true, lo, hi)
    ensures Apart(Select(levels[out], s, false), lo, hi)
  {
    hide Hull, Starts, Ends, ClosedAtZero;
    var stay := Select(levels[out], s, false);
    SelectIn(levels[out], s, false);
    forall i | 0 <= i < |stay| ensures stay[i].largest < lo || stay[i].smallest > hi {
      var f := stay[i];
      assert f in stay;
      var k :| 0 <= k < |levels[out]| && levels[out][k] == f;
      assert ClosedAt(levels, s, out) && !Chosen(levels, s, out, k);
      HullSpan(levels, s, out + 1, true, lo, hi, f.largest);
      HullSpan(levels, s, out + 1, true, lo, hi, f.smallest);
    }
  }

  /** After the compaction the files of the output level are in key order. */
  lemma OutputLevelSorted(levels: Levels, s: set<nat>, out: nat, lo: Key, hi: Key, outputs: seq<File>, data: Data)
    requires WellFormed(levels) && 1 <= out < |levels| && Good(levels, s, out) && Hull(levels, s, out + 1, true, lo, hi)
    requires lo <= hi
    requires Merges(levels, s, out, lo, hi, outputs, data)
    ensures |Compacted(levels, s, out, lo, hi, outputs)| == |levels|
    ensures Sorted(Compacted(levels, s, out, lo, hi, outputs)[out])
  {
    hide Good, Hull;
    var stay := Select(levels[out], s, false);
    StayApart(levels, s, out, lo, hi);
    SelectSorted(levels[out], s, false);
    SplitAround(stay, lo, hi);
    BeforeIn(stay, lo, hi);
    SelectLevelsAt(levels[..out], s, false);
    var a, b := Before(stay, lo), After(stay, hi);
    assert Compacted(levels, s, out, lo, hi, outputs)[out] == a + outputs + b;
    JoinSorted(a, outputs, b, lo, hi);
  }

  lemma JoinSorted(a: seq<File>, outputs: seq<File>, b: seq<File>, lo: Key, hi: Key)
    requires Sorted(a + b) && Sorted(outputs) && lo <= hi
    requires forall i | 0 <= i < |a| :: a[i].largest < lo
    requires forall i | 0 <= i < |b| :: b[i].smallest > hi
    requires forall i | 0 <= i < |outputs| :: lo <= outputs[i].smallest && outputs[i].largest <= hi
    ensures Sorted(a + outputs + b)
  {
    var ab, all := a + b, a + outputs + b;
    forall i | 0 <= i < |all| ensures all[i].smallest <= all[i].largest {
      if i < |a| {
        assert all[i] == ab[i];
      } else if i >= |a| + |outputs| {
        assert all[i] == ab[i - |outputs|];
      }
    }
    forall i, j | 0 <= i < j < |all| ensures all[i].largest <= all[j].smallest {
      if j < |a| {
        assert all[i] == ab[i] && all[j] == ab[j];
      } else if i >= |a| + |outputs| {
        assert all[i] == ab[i - |outputs|] && all[j] == ab[j - |outputs|];
      }
    }
  }

  /** A key found in the chosen files is within their span, and no file that stays at the output level has it. */
  lemma FoundInHull(levels: Levels, s: set<nat>, out: nat, lo: Key, hi: Key, data: Data, k: Key)
    requires 1 <= out < |levels| && Good(levels, s, out) && Hull(levels, s, out + 1, true, lo, hi)
    requires DataOk(levels, data)
    requires Lookup(SelectLevels(levels[..out + 1], s, true), data, k).Some?
    ensures lo <= k <= hi && LookupIn(Select(levels[out], s, false), data, k) == None
  {
    hide Good, ClosedAt;
    var upper, stay := levels[..out + 1], Select(levels[out], s, false);
    if NoneHas(upper, s, true, data, k) {
      LookupAllSelected(upper, s, false, data, k);
    }
    var l, i :| 0 <= l < |upper| && 0 <= i < |upper[l]| && upper[l][i].number in s && Has(upper[l][i], data, k);
    assert Chosen(levels, s, l, i);
    SharedKey(levels, data, k, l, i, l, i);
    SelectIn(levels[out], s, false);
    forall j | 0 <= j < |stay| ensures !Has(stay[j], data, k) {
      assert stay[j] in stay;
      var x :| 0 <= x < |levels[out]| && levels[out][x] == stay[j];
      if Has(levels[out][x], data, k) {
        SharedKey(levels, data, k, l, i, out, x);
        GoodIsClosed(levels, s, out, l, i, out, x);
      }
    }
    LookupNone(stay, data, k);
  }

  lemma StayLookup(levels: Levels, s: set<nat>, out: nat, lo: Key, hi: Key, outputs: seq<File>, data: Data, k: Key)
    requires WellFormed(levels) && 1 <= out < |levels| && Good(levels, s, out) && Hull(levels, s, out + 1, true, lo, hi)
    requires lo <= hi
    requires DataOk(levels, data) && (LookupIn(outputs, data, k).Some? ==> lo <= k <= hi)
    ensures var stay := Select(levels[out], s, false);
            LookupIn(Before(stay, lo) + outputs + After(stay, hi), data, k) ==
              OrElse(LookupIn(outputs, data, k), LookupIn(stay, data, k))
  {
    hide Good, Hull;
    var stay := Select(levels[out], s, false);
    StayApart(levels, s, out, lo, hi);
    SelectSorted(levels[out], s, false);
    SelectIn(levels[out], s, false);
    forall i | 0 <= i < |stay| ensures FileData(stay[i], data) {
      assert stay[i] in stay;
      var x :| 0 <= x < |levels[out]| && levels[out][x] == stay[i];
    }
    LevelLookup(stay, outputs, lo, hi, data, k);
  }

  /** In a good set, below a chosen file with the key there are only chosen files with the key. */
  lemma GoodSinks(levels: Levels, s: set<nat>, out: nat, data: Data, k: Key)
    requires 1 <= out < |levels| && Good(levels, s, out) && DataOk(levels, data)
    ensures Sinks(levels[..out + 1], s, data, k)
  {
    hide DataOk, ClosedAt;
    var upper: Levels := levels[..out + 1];
    forall l, i, m, j | 0 <= l <= m < |upper| && 0 <= i < |upper[l]| && 0 <= j < |upper[m]| && (l == m == 0 ==> i < j)
                        && upper[l][i].number in s && Has(upper[l][i], data, k) && Has(upper[m][j], data, k)
      ensures upper[m][j].number in s
    {
      assert upper[l] == levels[l] && upper[m] == levels[m] && Chosen(levels, s, l, i);
      if m == 0 {
        assert Chosen(levels, s, 0, j);
      } else {
        SharedKey(levels, data, k, l, i, m, j);
        GoodIsClosed(levels, s, out, l, i, m, j);
      }
    }
  }

  /** No lookup changes when a good set is compacted. */
  lemma CompactionKeepsLookups(levels: Levels, s: set<nat>, out: nat, lo: Key, hi: Key, outputs: seq<File>, data: Data,
          k: Key)
    requires WellFormed(levels) && 1 <= out < |levels| && Good(levels, s, out) && Hull(levels, s, out + 1, true, lo, hi)
    requires lo <= hi
    requires DataOk(levels, data) && Merges(levels, s, out, lo, hi, outputs, data)
    ensures Lookup(Compacted(levels, s, out, lo, hi, outputs), data, k) == Lookup(levels, data, k)
  {
    hide Good, Hull, DataOk, WellFormed, Lookup, LookupIn, Select, SelectLevels, Before, After, Sinks;
    var stay := Select(levels[out], s, false);
    assert LookupIn(outputs, data, k) == Lookup(SelectLevels(levels[..out + 1], s, true), data, k);
    if LookupIn(outputs, data, k).Some? {
      FoundInHull(levels, s, out, lo, hi, data, k);
    }
    GoodSinks(levels, s, out, data, k);
    StayLookup(levels, s, out, lo, hi, outputs, data, k);
    MoveDown(levels, s, out, outputs, Before(stay, lo) + outputs + After(stay, hi), data, k);
  }
}
