/** The part of a picked compaction that its iterator asks about: what lies beneath the output level. */
module Compactions {
  import opened Records

  /** User key range of a table file. */
  datatype FileRange = FileRange(smallest: Key, largest: Key)

  datatype Compaction = Compaction(
    outputLevel: nat,
    levels: seq<seq<FileRange>>,
    bottommost: bool,
    levelStyle: bool,
    largestUserKey: Key,
    allowIngestBehind: bool,
    preserveDeletes: bool)
  {
    /** Files of a level above 0 are ordered; neighbours may share one user key. */
    ghost predicate Valid() {
      && (forall lvl, i | 1 <= lvl < |levels| && 0 <= i < |levels[lvl]| ::
            levels[lvl][i].smallest <= levels[lvl][i].largest)
      && (forall lvl, i, j | 1 <= lvl < |levels| && 0 <= i < j < |levels[lvl]| ::
            levels[lvl][i].largest <= levels[lvl][j].smallest)
    }

    predicate Covers(lvl: nat, i: nat, k: Key)
      requires lvl < |levels| && i < |levels[lvl]|
    {
      levels[lvl][i].smallest <= k <= levels[lvl][i].largest
    }

    /** Some file of level `lvl` has `k` in its range: a scan of the whole level. */
    predicate InLevel(lvl: nat, k: Key)
      requires lvl < |levels|
    {
      exists i | 0 <= i < |levels[lvl]| :: Covers(lvl, i, k)
    }

    /** The answer without cursors: scan every file of every deeper level. */
    predicate AbsentBeyond(k: Key) {
      || bottommost
      || (outputLevel != 0 && levelStyle && forall lvl | outputLevel < lvl < |levels| :: !InLevel(lvl, k))
    }

    /** The cursors have only passed files that end before `k`. */
    ghost predicate CursorsBehind(ptrs: seq<nat>, k: Key) {
      && |ptrs| == |levels|
      && forall lvl | 0 <= lvl < |levels| ::
           ptrs[lvl] <= |levels[lvl]| && forall i | 0 <= i < ptrs[lvl] :: levels[lvl][i].largest < k
    }

    lemma CursorsBehindLater(ptrs: seq<nat>, k: Key, l: Key)
      requires CursorsBehind(ptrs, k) && k <= l
      ensures CursorsBehind(ptrs, l)
    {
    }

    /** The resumable search: a cursor per level never goes back, yet for keys asked
        in nondecreasing order the answer is that of a full scan. */
    method KeyNotExistsBeyondOutputLevel(k: Key, levelPtrs: array<nat>) returns (absent: bool)
      requires Valid() && CursorsBehind(levelPtrs[..], k)
      modifies levelPtrs
      ensures absent <==> AbsentBeyond(k)
      ensures CursorsBehind(levelPtrs[..], k)
    {
      if bottommost {
        return true;
      } else if outputLevel != 0 && levelStyle {
        var lvl := outputLevel + 1;
        while lvl < |levels|
          invariant outputLevel + 1 <= lvl
          invariant forall l | outputLevel < l < lvl && l < |levels| :: !InLevel(l, k)
          invariant CursorsBehind(levelPtrs[..], k)
        {
          var found := AdvanceCursor(lvl, k, levelPtrs);
          if found {
            return false;
          }
          lvl := lvl + 1;
        }
        return true;
      }
      return false;
    }

    /** The inner loop: one level's cursor moves past the files that end before `k`. */
    method AdvanceCursor(lvl: nat, k: Key, levelPtrs: array<nat>) returns (found: bool)
      requires Valid() && 1 <= lvl < |levels| && CursorsBehind(levelPtrs[..], k)
      modifies levelPtrs
      ensures found <==> InLevel(lvl, k)
      ensures CursorsBehind(levelPtrs[..], k)
      ensures forall l | 0 <= l < levelPtrs.Length && l != lvl :: levelPtrs[l] == old(levelPtrs[l])
      ensures levelPtrs[lvl] >= old(levelPtrs[lvl])
    {
      var files := levels[lvl];
      while levelPtrs[lvl] < |files|
        invariant CursorsBehind(levelPtrs[..], k)
        invariant forall l | 0 <= l < levelPtrs.Length && l != lvl :: levelPtrs[l] == old(levelPtrs[l])
        invariant levelPtrs[lvl] >= old(levelPtrs[lvl])
        decreases |files| - levelPtrs[lvl]
      {
        var p := levelPtrs[lvl];
        if k <= files[p].largest {
          if k >= files[p].smallest {
            assert Covers(lvl, p, k);
            return true;
          }
          assert forall i | p < i < |files| :: files[p].largest <= files[i].smallest;
          return false;
        }
        levelPtrs[lvl] := p + 1;
      }
      assert levelPtrs[..][lvl] == |files|;
      return false;
    }

    /** The records beneath the compaction lie where the version says they can. */
    ghost predicate Beneath(input: seq<Record>, deeper: seq<Record>) {
      && (bottommost ==> forall i, j | 0 <= i < |input| && 0 <= j < |deeper| :: input[i].key != deeper[j].key)
      && (outputLevel != 0 && levelStyle ==> forall j | 0 <= j < |deeper| :: InDeeper(deeper[j].key))
    }

    predicate InDeeper(k: Key) {
      exists lvl | outputLevel < lvl < |levels| :: InLevel(lvl, k)
    }

    lemma BeneathOneKey(input: seq<Record>, deeper: seq<Record>, k: Key)
      requires forall j | 0 <= j < |deeper| :: deeper[j].key == k
      requires deeper != [] ==> !AbsentBeyond(k)
      ensures Beneath(input, deeper)
    {
    }

    lemma AbsentMeansNoRecord(input: seq<Record>, deeper: seq<Record>, i: nat)
      requires Beneath(input, deeper) && i < |input| && AbsentBeyond(input[i].key)
      ensures VersionsOf(deeper, input[i].key) == []
    {
      forall j | 0 <= j < |deeper| ensures deeper[j].key != input[i].key {
        if !bottommost {
          var lvl :| outputLevel < lvl < |levels| && InLevel(lvl, deeper[j].key);
        }
      }
      VersionsOfNone(deeper, input[i].key);
    }
  }
}
