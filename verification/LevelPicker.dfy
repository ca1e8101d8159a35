/** The level-style compaction picker: over every run of flushes, picks, manual range compactions and completions. */
module LevelPicker {
  import opened Options
  import opened LevelFiles
  import opened LevelZero
  import opened LevelState
  import opened LevelInputs
  import opened LevelCompactions
  import opened LevelMeaning
  import opened Lookups

  /** Bytes rewritten for each file that merging the first `k + 1` files saves. */
  function WorkPerFile(files: seq<File>, k: nat): nat
    requires 1 <= k < |files|
  {
    TotalSize(files, 0, k + 1) / k
  }

  lemma WorkIs(files: seq<File>, k: nat, bytes: nat)
    requires 1 <= k < |files| && bytes == TotalSize(files, 0, k + 1)
    ensures bytes / k == WorkPerFile(files, k)
  {
  }

  /** The first `n` files are idle, with work per saved file that does not grow, and the next one ends this. */
  ghost predicate IntraSpan(files: seq<File>, running: Running, n: nat) {
    && 1 <= n <= |files| && Idle(files, running, 0, n)
    && (forall k | 2 <= k < n :: WorkPerFile(files, k) <= WorkPerFile(files, k - 1))
    && (n == |files| || Busy(running, files[n].number) || (n >= 2 && WorkPerFile(files, n) > WorkPerFile(files, n - 1)))
  }

  /** The span of newest files of level 0 that are idle and for which the work per saved file does not grow. */
  method FindIntraZero(files: seq<File>, running: Running, least: nat) returns (ok: bool, n: nat)
    requires files != [] && !Busy(running, files[0].number)
    ensures IntraSpan(files, running, n) && (ok <==> n >= least)
  {
    hide WorkPerFile, Busy;
    var bytes := files[0].size;
    var best: Option<nat> := None;
    n := 1;
    while n < |files|
      invariant 1 <= n <= |files| && Idle(files, running, 0, n) && bytes == TotalSize(files, 0, n)
      invariant best == if n >= 2 then Some(WorkPerFile(files, n - 1)) else None
      invariant forall k | 2 <= k < n :: WorkPerFile(files, k) <= WorkPerFile(files, k - 1)
    {
      bytes := bytes + files[n].size;
      var perFile := bytes / n;
      WorkIs(files, n, bytes);
      if Busy(running, files[n].number) || (best.Some? && perFile > best.value) {
        break;
      }
      best := Some(perFile);
      n := n + 1;
    }
    ok := n >= least;
  }

  class LevelCompactionPicker {
    var levels: Levels
    var running: Running
    var next: nat

    /** The levels are in order, no file is in two running compactions, compactions to the same level above 0 have
        separate keys, at most one moves level 0 down, and each leaves no overlapping file behind. */
    ghost predicate Valid()
      reads this
    {
      LevelsOk(levels) && RunningOk(levels, running) && forall a | a in running :: a < next
    }

    constructor (numLevels: nat)
      requires numLevels > 0
      ensures Valid() && running == map[] && |levels| == numLevels && forall l | 0 <= l < numLevels :: levels[l] == []
    {
      levels := seq(numLevels, _ => []);
      running, next := map[], 0;
    }

    method Flush(f: File)
      requires Valid() && f.smallest <= f.largest && !Present(levels, f.number)
      modifies `levels
      ensures Valid() && levels == old(levels)[0 := [f] + old(levels)[0]]
      ensures forall data: Data, k: Key ::
                Lookup(levels, data, k) ==
                if Has(f, data, k) then Some(data[f.number][k]) else Lookup(old(levels), data, k)
    {
      hide RunningOk;
      forall data: Data, k: Key
        ensures Lookup(levels[0 := [f] + levels[0]], data, k) ==
                if Has(f, data, k) then Some(data[f.number][k]) else Lookup(levels, data, k)
      {
        FlushLookup(levels, f, data, k);
      }
      FlushOk(levels, running, f);
      levels := levels[0 := [f] + levels[0]];
    }

    method Register(c: Compaction) returns (id: nat)
      requires Valid() && Ready(levels, running, c)
      modifies `running, `next
      ensures Valid() && id !in old(running) && running == old(running)[id := c]
    {
      hide LevelsOk, RunningOk, Ready;
      RegisterOk(levels, running, c, next);
      id := next;
      running := running[next := c];
      next := next + 1;
    }

    /** A compaction ends and its output files take the place of its inputs, which changes no lookup. */
    method Finish(id: nat, outputs: seq<File>)
      requires Valid() && id in running && Outputs(levels, running[id], outputs)
      modifies `levels, `running
      ensures Valid() && running == old(running) - {id} && levels == Finished(old(levels), old(running)[id], outputs)
      ensures forall data: Data, k: Key | GapClear(old(levels), old(running)[id])
                                          && Merged(old(levels), old(running)[id], outputs, data) ::
                Lookup(levels, data, k) == Lookup(old(levels), data, k)
    {
      hide LevelsOk, RunningOk, Finished, Outputs, GapClear, Merged, Lookup;
      var c := running[id];
      forall data: Data, k: Key | GapClear(levels, c) && Merged(levels, c, outputs, data)
        ensures Lookup(Finished(levels, c, outputs), data, k) == Lookup(levels, data, k)
      {
        FinishKeepsLookups(levels, running, id, outputs, data, k);
      }
      FinishOk(levels, running, id, outputs);
      levels := Finished(levels, running[id], outputs);
      running := running - {id};
    }

    /** Starts the compaction of ranges of two levels, or of one, unless another one writes to the same keys. */
    method StartRanges(s: nat, o: nat, a: nat, b: nat, c: nat, d: nat) returns (r: Option<nat>)
      requires Valid() && 1 <= s <= o < |levels| && StartOk(levels[s], running, a, b)
      requires s == o ==> c == d == 0
      requires s < o ==> Covers(levels[o], levels[s][a].smallest, levels[s][b - 1].largest, c, d)
      requires s < o ==> Idle(levels[o], running, c, d)
      modifies `running, `next
      ensures Valid() && a < b <= |levels[s]| && c <= d <= |levels[o]|
      ensures r.None? ==> running == old(running)
      ensures var comp := FromRanges(levels, s, o, a, b, c, d);
              r.Some? <==> RangeFree(old(running), comp.lo, comp.hi, o)
      ensures r.Some? ==>
                r.value !in old(running) && running == old(running)[r.value := FromRanges(levels, s, o, a, b, c, d)]
    {
      hide Standing, Covers;
      RangesStanding(levels, running, s, o, a, b, c, d);
      RangesIdle(levels, running, s, o, a, b, c, d);
      var comp := FromRanges(levels, s, o, a, b, c, d);
      if !RangeFree(running, comp.lo, comp.hi, o) {
        return None;
      }
      ChecksSuffice(running, comp);
      NoZeroOrder(levels, running, comp);
      var id := Register(comp);
      r := Some(id);
    }

    /** Starts the compaction of files of level 0 with a range of the output level. */
    method StartZero(o: nat, picked: set<nat>, lo: Key, hi: Key, c: nat, d: nat) returns (r: Option<nat>)
      requires Valid() && 1 <= o < |levels| && ZeroFree(running) && forall l | 1 <= l < o :: levels[l] == []
      requires ZeroInputs(levels[0], picked) && ZeroClosed(levels[0], picked) && ZeroSpan(levels[0], picked, lo, hi)
      requires lo <= hi
      requires Covers(levels[o], lo, hi, c, d) && Idle(levels[o], running, c, d)
      modifies `running, `next
      ensures Valid() && c <= d <= |levels[o]|
      ensures r.None? ==> running == old(running)
      ensures var comp := FromZero(levels, o, picked, lo, hi, c, d);
              r.Some? <==> RangeFree(old(running), comp.lo, comp.hi, o)
      ensures r.Some? ==>
                r.value !in old(running)
                  && running == old(running)[r.value := FromZero(levels, o, picked, lo, hi, c, d)]
    {
      hide Standing, Covers, ZeroSpan;
      ZeroStanding(levels, o, picked, lo, hi, c, d);
      ZeroInputsIdle(levels, running, o, picked, lo, hi, c, d);
      var comp := FromZero(levels, o, picked, lo, hi, c, d);
      if !RangeFree(running, comp.lo, comp.hi, o) {
        return None;
      }
      ChecksSuffice(running, comp);
      NoZeroOrder(levels, running, comp);
      var id := Register(comp);
      r := Some(id);
    }

    /** Picks a file of a level above 0 to go one level down; `bySize` if the level is over its size, else because the
        file was marked. */
    method PickFile(s: nat, index: nat, bySize: bool, limit: nat) returns (r: Option<nat>)
      requires Valid() && 1 <= s && s + 1 < |levels| && index < |levels[s]|
      modifies `running, `next
      ensures Valid()
      ensures r.None? ==> running == old(running)
      ensures r.Some? ==>
                && r.value !in old(running) && r.value in running
                && running == old(running)[r.value := running[r.value]]
                && levels[s][index].number in running[r.value].inputs
                && TakenAs(levels, old(running), s, s + 1, index, index + 1, limit, running[r.value])
      ensures r.None? ==> NoneTaken(levels, old(running), s, s + 1, index, index + 1, limit)
    {
      hide Idle, Covers, OutputFiles, OutputIdle, Grown, RunningOk, NumbersUnique, TakenAs, NoneTaken, FromRanges;
      var files, o := levels[s], s + 1;
      assert Sorted(files) && Sorted(levels[o]);
      if Busy(running, files[index].number) {
        BusyFile(levels, running, s, o, index, limit);
        return None;
      }
      var x, y := ExpandToCleanCut(files, index, index + 1);
      var busy := AreFilesInCompaction(files, running, x, y);
      if busy {
        BusyStart(levels, running, s, o, index, index + 1, limit, x, y);
        return None;
      }
      SpanOk(files, x, y);
      if bySize {
        if !RangeFree(running, files[x].smallest, files[y - 1].largest, o) {
          EarlyConflict(levels, running, s, o, index, index + 1, limit, x, y);
          return None;
        }
        var fits, _, _ := OutputInputs(levels[o], running, files[x].smallest, files[y - 1].largest);
        if !fits {
          BusyOutput(levels, running, s, o, index, index + 1, limit, x, y);
          return None;
        }
      }
      var ok, a, b, c, d := SetupOther(levels, running, s, o, x, y, if bySize then index else -1, limit);
      if !ok {
        BusyOutput(levels, running, s, o, index, index + 1, limit, x, y);
        return None;
      }
      TakesIff(levels, running, s, o, index, index + 1, limit, x, y, a, b, c, d);
      r := StartRanges(s, o, a, b, c, d);
      if r.Some? {
        TakenHas(levels, old(running), s, o, index, index + 1, limit, running[r.value], index);
      }
    }

    /** Picks a file of level 0, with all files of level 0 that it meets, to go to the base level. */
    method PickFileZero(base: nat, index: nat, bySize: bool, limit: nat) returns (r: Option<nat>)
      requires Valid() && 1 <= base < |levels| && index < |levels[0]| && forall l | 1 <= l < base :: levels[l] == []
      modifies `running, `next
      ensures Valid()
      ensures r.None? ==> running == old(running)
      ensures (exists id | id in old(running) :: old(running)[id].start == 0) ==> r.None?
      ensures r.Some? ==>
                && r.value !in old(running) && r.value in running
                && running == old(running)[r.value := running[r.value]]
                && levels[0][index].number in running[r.value].inputs
                && exists wanted | MeetsSpan(levels[0], levels[0][index].smallest, levels[0][index].largest, wanted) ::
                     ZeroTakenAs(levels, old(running), base, wanted, limit, running[r.value])
      ensures r.None? && (forall id | id in old(running) :: old(running)[id].start != 0) ==>
                forall wanted | MeetsSpan(levels[0], levels[0][index].smallest, levels[0][index].largest, wanted) ::
                  ZeroNoneTaken(levels, old(running), base, wanted, limit)
    {
      hide Idle, Covers, OutputFiles, OutputIdle, RunningOk, NumbersUnique, ZeroSpan, MeetsSpan, ZeroGrown, RangeFree;
      hide ZeroTakenAs, ZeroNoneTaken, FromZero;
      if !ZeroFree(running) {
        return None;
      }
      var files, f := levels[0], levels[0][index];
      assert Sorted(levels[base]);
      ghost var wanted := SpanExists(files, f.smallest, f.largest);
      OwnSpan(files, index, wanted);
      OnlySpan(files, f.smallest, f.largest, wanted);
      if bySize {
        if !RangeFree(running, f.smallest, f.largest, base) {
          ZeroEarlyConflict(levels, running, base, wanted, limit, f.smallest, f.largest);
          return None;
        }
        var fits, _, _ := OutputInputs(levels[base], running, f.smallest, f.largest);
        if !fits {
          ZeroEarlyBusy(levels, running, base, wanted, limit, index);
          return None;
        }
      }
      var picked, lo, hi := GetOverlappingZero(files, f.smallest, f.largest);
      FoundSpan(files, f.smallest, f.largest, picked, lo, hi);
      lo, hi := GetZeroSpan(files, picked);
      var x, y := GetOverlapping(levels[base], lo, hi, -1);
      var busy := AreFilesInCompaction(levels[base], running, x, y);
      if busy {
        NotIdle(levels[base], running, lo, hi, x, y);
        ZeroBusyOutput(levels, running, base, wanted, limit, lo, hi);
        return None;
      }
      var ok, c, d;
      ghost var lo0, hi0;
      ok, picked, lo, hi, c, d, lo0, hi0 := SetupZero(levels, running, base, picked, limit);
      if !ok {
        ZeroBusyOutput(levels, running, base, wanted, limit, lo0, hi0);
        return None;
      }
      ZeroTakesIff(levels, running, base, wanted, limit, lo0, hi0, picked, lo, hi, c, d);
      r := StartZero(base, picked, lo, hi, c, d);
      if r.Some? {
        ZeroTakenHas(levels, old(running), base, wanted, limit, running[r.value], index);
      }
    }

    /** Merges a span of the newest files of level 0 within level 0, even while other compactions from level 0 run. */
    method PickIntraZero(trigger: nat) returns (r: Option<nat>)
      requires Valid()
      modifies `running, `next
      ensures Valid()
      ensures r.None? ==> running == old(running)
      ensures r.Some? ==>
                && r.value !in old(running) && r.value in running
                && running == old(running)[r.value := running[r.value]]
                && running[r.value].start == 0 == running[r.value].output
                && |levels[0]| >= trigger + 2
                && exists n: nat | IntraSpan(levels[0], old(running), n) ::
                     n >= 4 && running[r.value].inputs == Numbers(levels[0], 0, n)
      ensures r.None? ==>
                || |levels[0]| < trigger + 2 || Busy(old(running), levels[0][0].number)
                || exists n: nat | IntraSpan(levels[0], old(running), n) :: n < 4
    {
      hide RunningOk, NumbersUnique, Standing, ZeroOrder, Sorted, Distinct, ZeroSpan;
      var files := levels[0];
      if |files| < trigger + 2 || Busy(running, files[0].number) {
        return None;
      }
      var ok, n := FindIntraZero(files, running, 4);
      if !ok {
        return None;
      }
      var picked := Positions(n);
      assert 0 in picked;
      var lo, hi := GetZeroSpan(files, picked);
      FirstNumbers(files, picked, n);
      ZeroStanding(levels, 0, picked, lo, hi, 0, 0);
      var comp := FromZero(levels, 0, picked, lo, hi, 0, 0);
      assert comp.inputs == Numbers(files, 0, n);
      ChecksSuffice(running, comp);
      NewestOrder(levels, running, comp, n);
      var id := Register(comp);
      r := Some(id);
    }

    /** Rewrites a file of a bottommost level in place, above level 0 with the files it shares keys with. */
    method PickBottommost(l: nat, index: nat) returns (r: Option<nat>)
      requires Valid() && l < |levels| && index < |levels[l]|
      modifies `running, `next
      ensures Valid()
      ensures r.None? ==> running == old(running)
      ensures r.None? <== Busy(old(running), levels[l][index].number)
      ensures r.Some? ==>
                && r.value !in old(running) && r.value in running
                && running == old(running)[r.value := running[r.value]]
                && running[r.value].start == l == running[r.value].output
                && levels[l][index].number in running[r.value].inputs
      ensures l == 0 && r.None? ==> Busy(old(running), levels[l][index].number)
      ensures l == 0 && r.Some? ==> running[r.value].inputs == {levels[0][index].number}
      ensures l > 0 && r.Some? ==> TakenAs(levels, old(running), l, l, index, index + 1, 0, running[r.value])
      ensures l > 0 && r.None? ==> NoneTaken(levels, old(running), l, l, index, index + 1, 0)
    {
      hide Idle, RunningOk, NumbersUnique, TakenAs, NoneTaken, FromRanges;
      var files := levels[l];
      if Busy(running, files[index].number) {
        if l > 0 {
          BusyFile(levels, running, l, l, index, 0);
        }
        return None;
      }
      if l == 0 {
        var id := RewriteZero(index);
        return Some(id);
      }
      assert Sorted(files);
      var a, b := ExpandToCleanCut(files, index, index + 1);
      var busy := AreFilesInCompaction(files, running, a, b);
      if busy {
        BusyStart(levels, running, l, l, index, index + 1, 0, a, b);
        return None;
      }
      TakesIff(levels, running, l, l, index, index + 1, 0, a, b, a, b, 0, 0);
      r := StartRanges(l, l, a, b, 0, 0);
      if r.Some? {
        TakenHas(levels, old(running), l, l, index, index + 1, 0, running[r.value], index);
      }
    }

    /** Rewrites one file of level 0 in place. */
    method RewriteZero(index: nat) returns (id: nat)
      requires Valid() && index < |levels[0]| && !Busy(running, levels[0][index].number)
      modifies `running, `next
      ensures Valid() && id !in old(running)
      ensures var f := levels[0][index];
              running == old(running)[id := Compaction(0, 0, {f.number}, f.smallest, f.largest)]
    {
      hide RunningOk, NumbersUnique, Busy;
      var f := levels[0][index];
      var comp := FromZero(levels, 0, {index}, f.smallest, f.largest, 0, 0);
      ZeroStanding(levels, 0, {index}, f.smallest, f.largest, 0, 0);
      assert comp.inputs == {f.number};
      ChecksSuffice(running, comp);
      OneOrder(levels, running, comp, index);
      id := Register(comp);
    }

    /** A manual compaction of the files of a level above 0 that meet a range of keys, as far as the size limit goes;
        `rest` is where the next one has to begin. */
    method CompactRange(s: nat, o: nat, begin: Option<Key>, end: Option<Key>, limit: nat)
      returns (r: Option<nat>, rest: Option<Key>)
      requires Valid() && 1 <= s <= o < |levels| && (begin.Some? && end.Some? ==> begin.value <= end.value)
      modifies `running, `next
      ensures Valid()
      ensures r.None? ==> running == old(running)
      ensures r.Some? ==>
                && r.value !in old(running) && r.value in running
                && running == old(running)[r.value := running[r.value]]
                && exists p: nat, q: nat | Wanted(levels[s], begin, end, limit, p, q) ::
                     TakenAs(levels, old(running), s, o, p, q, limit, running[r.value])
      ensures r.None? ==> forall p: nat, q: nat | Wanted(levels[s], begin, end, limit, p, q) ::
                NoneTaken(levels, old(running), s, o, p, q, limit)
      ensures forall p: nat, q: nat | Wanted(levels[s], begin, end, limit, p, q) ::
                rest == if q < |levels[s]| && Meets(levels[s][q], begin, end) then Some(levels[s][q].smallest) else None
    {
      hide Idle, OutputFiles, OutputIdle, Grown, RunningOk, NumbersUnique, TakenAs, NoneTaken, FromRanges, Wanted;
      var files := levels[s];
      assert Sorted(files);
      var found, p, q;
      found, p, q, rest := WantedFiles(files, begin, end, limit);
      if !found {
        return None, rest;
      }
      var x, y := ExpandToCleanCut(files, p, q);
      var busy := AreFilesInCompaction(files, running, x, y);
      if busy {
        BusyStart(levels, running, s, o, p, q, limit, x, y);
        return None, rest;
      }
      var a, b, c, d := x, y, 0, 0;
      if s != o {
        var ok;
        ok, a, b, c, d := SetupOther(levels, running, s, o, x, y, -1, limit);
        if !ok {
          BusyOutput(levels, running, s, o, p, q, limit, x, y);
          return None, rest;
        }
      }
      TakesIff(levels, running, s, o, p, q, limit, x, y, a, b, c, d);
      r := StartRanges(s, o, a, b, c, d);
    }

    /** A manual compaction of files of level 0 to a deeper level. */
    method CompactRangeZero(o: nat, begin: Option<Key>, end: Option<Key>, limit: nat) returns (r: Option<nat>)
      requires Valid() && 1 <= o < |levels| && forall l | 1 <= l < o :: levels[l] == []
      modifies `running, `next
      ensures Valid()
      ensures r.None? ==> running == old(running)
      ensures (exists id | id in old(running) :: old(running)[id].start == 0) ==> r.None?
      ensures r.Some? ==>
                && r.value !in old(running) && r.value in running
                && running == old(running)[r.value := running[r.value]]
                && exists wanted | ZeroWanted(levels[0], begin, end, wanted) ::
                     ZeroTakenAs(levels, old(running), o, wanted, limit, running[r.value])
      ensures r.None? && (forall id | id in old(running) :: old(running)[id].start != 0) ==>
                forall wanted | ZeroWanted(levels[0], begin, end, wanted) ::
                  ZeroNoneTaken(levels, old(running), o, wanted, limit)
    {
      hide Idle, Covers, OutputFiles, OutputIdle, RunningOk, NumbersUnique, ZeroSpan, MeetsSpan, ZeroGrown, RangeFree;
      hide ZeroTakenAs, ZeroNoneTaken, FromZero;
      var files := levels[0];
      if files == [] {
        NoZeroWanted(begin, end);
        return None;
      }
      assert 0 in Positions(|files|);
      var all, top := GetZeroSpan(files, Positions(|files|));
      var from, to := if begin.Some? then begin.value else all, if end.Some? then end.value else top;
      var picked, lo, hi := GetOverlappingZero(files, from, to);
      FoundSpan(files, from, to, picked, lo, hi);
      ZeroWantedIs(files, begin, end, all, top, picked);
      if picked == {} || !ZeroFree(running) {
        return None;
      }
      ghost var wanted := picked;
      var ok, c, d;
      ghost var lo0, hi0;
      ok, picked, lo, hi, c, d, lo0, hi0 := SetupZero(levels, running, o, picked, limit);
      if !ok {
        ZeroBusyOutput(levels, running, o, wanted, limit, lo0, hi0);
        return None;
      }
      ZeroTakesIff(levels, running, o, wanted, limit, lo0, hi0, picked, lo, hi, c, d);
      r := StartZero(o, picked, lo, hi, c, d);
    }
  }

  // ---- Manual ranges

  /** The file has a key of the range; a missing end is open. */
  predicate Meets(f: File, begin: Option<Key>, end: Option<Key>) {
    (begin.Some? ==> begin.value <= f.largest) && (end.Some? ==> f.smallest <= end.value)
  }

  /** Positions `p` to `q`: of the files that meet the range, from the first one on, those up to the size limit. */
  ghost predicate Wanted(files: seq<File>, begin: Option<Key>, end: Option<Key>, limit: nat, p: nat, q: nat) {
    && p < q <= |files| && (forall i | 0 <= i < p :: !Meets(files[i], begin, end))
    && (forall i | p <= i < q :: Meets(files[i], begin, end))
    && (forall k | p < k < q :: TotalSize(files, p, k) < limit)
    && (TotalSize(files, p, q) < limit ==> forall i | q <= i < |files| :: !Meets(files[i], begin, end))
  }

  lemma NothingWanted(files: seq<File>, begin: Option<Key>, end: Option<Key>, limit: nat)
    requires forall i | 0 <= i < |files| :: !Meets(files[i], begin, end)
    ensures forall p: nat, q: nat :: !Wanted(files, begin, end, limit, p, q)
  {
    forall p: nat, q: nat ensures !Wanted(files, begin, end, limit, p, q) {
      assert p < q <= |files| ==> !Meets(files[p], begin, end);
    }
  }

  lemma MeetsIs(files: seq<File>, begin: Option<Key>, end: Option<Key>, lo: Key, hi: Key)
    requires Sorted(files) && files != []
    requires lo == if begin.Some? then begin.value else files[0].smallest
    requires hi == if end.Some? then end.value else files[|files| - 1].largest
    ensures forall i | 0 <= i < |files| :: Meets(files[i], begin, end) <==> Overlaps(files[i], lo, hi)
    ensures (begin.Some? && end.Some? ==> begin.value <= end.value) && lo > hi ==>
              forall i | 0 <= i < |files| :: !Meets(files[i], begin, end)
  {
    forall i | 0 <= i < |files| ensures Meets(files[i], begin, end) <==> Overlaps(files[i], lo, hi) {
      assert files[0].smallest <= files[i].smallest && files[i].largest <= files[|files| - 1].largest;
    }
  }

  /** The choice of files is unique. */
  lemma WantedIs(files: seq<File>, begin: Option<Key>, end: Option<Key>, limit: nat, p: nat, e: nat, q: nat)
    requires p < q <= e <= |files| && forall i | 0 <= i < |files| :: Meets(files[i], begin, end) <==> p <= i < e
    requires (forall k | p < k < q :: TotalSize(files, p, k) < limit) && (q < e ==> TotalSize(files, p, q) >= limit)
    ensures forall p': nat, q': nat :: Wanted(files, begin, end, limit, p', q') <==> p' == p && q' == q
  {
    hide Meets;
    forall p': nat, q': nat | Wanted(files, begin, end, limit, p', q') ensures p' == p && q' == q {
      assert Meets(files[p'], begin, end) && Meets(files[p], begin, end) && Meets(files[q' - 1], begin, end);
      assert q' < e ==> Meets(files[q'], begin, end);
    }
  }

  /** The files that meet the range, cut off where their size reaches the limit. */
  method WantedFiles(files: seq<File>, begin: Option<Key>, end: Option<Key>, limit: nat)
    returns (found: bool, p: nat, q: nat, rest: Option<Key>)
    requires Sorted(files) && (begin.Some? && end.Some? ==> begin.value <= end.value)
    ensures !found ==> forall p': nat, q': nat :: !Wanted(files, begin, end, limit, p', q')
    ensures found ==>
              && p < q <= |files|
              && forall p': nat, q': nat :: Wanted(files, begin, end, limit, p', q') <==> p' == p && q' == q
    ensures found ==>
              rest == if q < |files| && Meets(files[q], begin, end) then Some(files[q].smallest) else None
  {
    hide Wanted;
    found, p, q, rest := false, 0, 0, None;
    if files == [] {
      NothingWanted(files, begin, end, limit);
      return;
    }
    var lo := if begin.Some? then begin.value else files[0].smallest;
    var hi := if end.Some? then end.value else files[|files| - 1].largest;
    MeetsIs(files, begin, end, lo, hi);
    if lo > hi {
      NothingWanted(files, begin, end, limit);
      return;
    }
    var e;
    p, e := GetOverlapping(files, lo, hi, -1);
    if p == e {
      NothingWanted(files, begin, end, limit);
      return;
    }
    q := Limited(files, p, e, limit);
    WantedIs(files, begin, end, limit, p, e, q);
    found := true;
    if q < e {
      rest := Some(files[q].smallest);
    }
  }

  /** What a manual compaction has to take: the first file that meets the range, and each one for which those before it
      do not reach the size limit. */
  lemma ManualInputs(levels: Levels, running: Running, s: nat, o: nat, begin: Option<Key>, end: Option<Key>, limit: nat,
          p: nat, q: nat, comp: Compaction, i: nat)
    requires LevelsOk(levels) && 1 <= s <= o < |levels| && Wanted(levels[s], begin, end, limit, p, q)
    requires TakenAs(levels, running, s, o, p, q, limit, comp) && i < |levels[s]| && Meets(levels[s][i], begin, end)
    ensures p <= i && (i == p || TotalSize(levels[s], p, i) < limit ==> levels[s][i].number in comp.inputs)
  {
    hide TakenAs;
    if i == p || TotalSize(levels[s], p, i) < limit {
      if i >= q {
        SizeGrows(levels[s], p, q, i);
      }
      TakenHas(levels, running, s, o, p, q, limit, comp, i);
    }
  }

  lemma {:induction false} SizeGrows(files: seq<File>, p: nat, q: nat, i: nat)
    requires p <= q <= i <= |files|
    ensures TotalSize(files, p, q) <= TotalSize(files, p, i)
    decreases i
  {
    if q < i {
      SizeGrows(files, p, q, i - 1);
    }
  }

  // ---- Ranges of level 0

  /** The files of level 0 that meet the range, with all that meet one of them, and so on. */
  ghost predicate ZeroWanted(files: seq<File>, begin: Option<Key>, end: Option<Key>, wanted: set<nat>) {
    && wanted != {}
    && exists all: Key, top: Key | ZeroSpan(files, Positions(|files|), all, top) ::
         MeetsSpan(files, if begin.Some? then begin.value else all, if end.Some? then end.value else top, wanted)
  }

  lemma ZeroWantedIs(files: seq<File>, begin: Option<Key>, end: Option<Key>, all: Key, top: Key, picked: set<nat>)
    requires ZeroSpan(files, Positions(|files|), all, top)
    requires MeetsSpan(files, if begin.Some? then begin.value else all, if end.Some? then end.value else top, picked)
    ensures forall wanted :: ZeroWanted(files, begin, end, wanted) <==> wanted == picked && picked != {}
  {
    hide ZeroSpan, MeetsSpan;
    forall wanted | ZeroWanted(files, begin, end, wanted) ensures wanted == picked {
      var l: Key, h: Key :| ZeroSpan(files, Positions(|files|), l, h)
                            && MeetsSpan(files, if begin.Some? then begin.value else l,
                                         if end.Some? then end.value else h, wanted);
      SameZeroSpan(files, Positions(|files|), all, top, l, h);
      SameSpan(files, if begin.Some? then begin.value else all, if end.Some? then end.value else top, picked, wanted);
    }
  }

  lemma NoZeroWanted(begin: Option<Key>, end: Option<Key>)
    ensures forall wanted :: !ZeroWanted([], begin, end, wanted)
  {
  }

  lemma OnlySpan(files: seq<File>, lo: Key, hi: Key, wanted: set<nat>)
    requires MeetsSpan(files, lo, hi, wanted)
    ensures forall w | MeetsSpan(files, lo, hi, w) :: w == wanted
  {
    forall w | MeetsSpan(files, lo, hi, w) ensures w == wanted {
      SameSpan(files, lo, hi, wanted, w);
    }
  }

  /** Every file of level 0 that meets the range is an input of a manual compaction. */
  lemma ZeroManualInputs(levels: Levels, running: Running, o: nat, begin: Option<Key>, end: Option<Key>, limit: nat,
          wanted: set<nat>, comp: Compaction, i: nat)
    requires LevelsOk(levels) && o < |levels| && ZeroWanted(levels[0], begin, end, wanted)
    requires ZeroTakenAs(levels, running, o, wanted, limit, comp) && i < |levels[0]| && Meets(levels[0][i], begin, end)
    ensures levels[0][i].number in comp.inputs && comp.start == 0 && comp.output == o
  {
    hide ZeroTakenAs;
    var files := levels[0];
    var all: Key, top: Key :| ZeroSpan(files, Positions(|files|), all, top)
                              && MeetsSpan(files, if begin.Some? then begin.value else all,
                                           if end.Some? then end.value else top, wanted);
    assert files[i].smallest <= files[i].largest && i in Positions(|files|);
    InSpan(files, if begin.Some? then begin.value else all, if end.Some? then end.value else top, wanted, i);
    ZeroTakenHas(levels, running, o, wanted, limit, comp, i);
  }

  lemma InSpan(files: seq<File>, lo: Key, hi: Key, wanted: set<nat>, i: nat)
    requires MeetsSpan(files, lo, hi, wanted) && i < |files| && Overlaps(files[i], lo, hi)
    ensures i in wanted && ZeroInputs(files, wanted)
  {
    var lo': Key, hi': Key :| LeastSpan(files, lo, hi, lo', hi')
                              && forall j: nat :: j in wanted <==> j < |files| && Overlaps(files[j], lo', hi');
  }

  lemma OwnSpan(files: seq<File>, i: nat, wanted: set<nat>)
    requires RangesOk(files) && i < |files| && MeetsSpan(files, files[i].smallest, files[i].largest, wanted)
    ensures i in wanted && ZeroInputs(files, wanted)
  {
    assert Overlaps(files[i], files[i].smallest, files[i].largest);
    InSpan(files, files[i].smallest, files[i].largest, wanted, i);
  }

  lemma ZeroEarlyBusy(levels: Levels, running: Running, o: nat, wanted: set<nat>, limit: nat, i: nat)
    requires LevelsOk(levels) && 1 <= o < |levels| && i in wanted && ZeroInputs(levels[0], wanted)
    requires !OutputIdle(levels[o], running, levels[0][i].smallest, levels[0][i].largest)
    ensures ZeroNoneTaken(levels, running, o, wanted, limit)
  {
    hide OutputIdle, ZeroNoneTaken;
    var l, h := ZeroSpanExists(levels[0], wanted);
    assert Sorted(levels[o]) && levels[0][i].smallest <= levels[0][i].largest;
    SmallerIdle(levels[o], running, levels[0][i].smallest, levels[0][i].largest, l, h);
    ZeroBusyOutput(levels, running, o, wanted, limit, l, h);
  }

  lemma BusyFile(levels: Levels, running: Running, s: nat, o: nat, index: nat, limit: nat)
    requires s < |levels| && o < |levels| && Sorted(levels[s]) && index < |levels[s]|
    requires Busy(running, levels[s][index].number)
    ensures NoneTaken(levels, running, s, o, index, index + 1, limit)
  {
    var x, y := CleanExists(levels[s], index, index + 1);
    BusyStart(levels, running, s, o, index, index + 1, limit, x, y);
  }

  /** The positions before `n`. */
  function Positions(n: nat): (r: set<nat>)
    ensures forall i: nat :: i in r <==> i < n
  {
    if n == 0 then {} else Positions(n - 1) + {n - 1}
  }

  /** Nothing that is being compacted is newer than the idle files at the front of level 0. */
  lemma NewestOrder(levels: Levels, running: Running, c: Compaction, n: nat)
    requires LevelsOk(levels) && c.output == 0 && n <= |levels[0]| && Idle(levels[0], running, 0, n)
    requires c.inputs == Numbers(levels[0], 0, n)
    ensures forall a | a in running :: ZeroOrder(levels[0], running[a], c) && ZeroOrder(levels[0], c, running[a])
  {
    forall j | 0 <= j < |levels[0]| && levels[0][j].number in c.inputs ensures j < n {
      assert IsFile(levels, 0, levels[0][j]);
      ByNumber(levels, 0, 0, n, 0, levels[0][j]);
    }
    WithinZeroOrder(levels, running, c);
  }

  /** An idle file of level 0 shares no key with a newer file that goes down. */
  lemma OneOrder(levels: Levels, running: Running, c: Compaction, index: nat)
    requires LevelsOk(levels) && RunningOk(levels, running) && c.output == 0 && index < |levels[0]|
    requires var f := levels[0][index];
             !Busy(running, f.number) && c.inputs == {f.number} && c.lo == f.smallest && c.hi == f.largest
    ensures forall a | a in running :: ZeroOrder(levels[0], running[a], c) && ZeroOrder(levels[0], c, running[a])
  {
    forall a, i, j | a in running && running[a].start == 0 < running[a].output && 0 <= i < j < |levels[0]|
                     && levels[0][i].number in running[a].inputs && levels[0][j].number in c.inputs
      ensures !Overlaps(levels[0][i], c.lo, c.hi)
    {
      assert Standing(levels, running[a]);
      assert j == index;
    }
    WithinZeroOrder(levels, running, c);
  }

  lemma FirstNumbers(files: seq<File>, picked: set<nat>, n: nat)
    requires n <= |files| && picked == Positions(n)
    ensures NumbersAt(files, picked) == Numbers(files, 0, n) && Numbers(files, 0, 0) == {}
  {
  }

  /** The end of the longest prefix of a range of files that reaches the size limit only with its last file. */
  method Limited(files: seq<File>, a: nat, b: nat, limit: nat) returns (e: nat)
    requires a < b <= |files|
    ensures a < e <= b && (forall k | a < k < e :: TotalSize(files, a, k) < limit)
    ensures e < b ==> TotalSize(files, a, e) >= limit
  {
    var total, i := 0, a;
    while i + 1 < b
      invariant a <= i < b && total == TotalSize(files, a, i) && forall k | a < k <= i :: TotalSize(files, a, k) < limit
    {
      total := total + files[i].size;
      i := i + 1;
      if total >= limit {
        return i;
      }
    }
    e := b;
  }
}
