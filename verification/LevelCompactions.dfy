/** From the input files of a level-style compaction to the compaction itself. */
module LevelCompactions {
  import opened Extrema
  import opened LevelFiles
  import opened LevelZero
  import opened LevelState
  import opened LevelInputs

  // ---- From inputs to a compaction

  /** The compaction of positions `a` to `b` of a start level above 0 with positions `c` to `d` of the output level. */
  function FromRanges(levels: Levels, s: nat, o: nat, a: nat, b: nat, c: nat, d: nat): Compaction
    requires s < |levels| && o < |levels| && a < b <= |levels[s]| && c <= d <= |levels[o]|
  {
    var files, outs := levels[s], levels[o];
    var lo, hi := files[a].smallest, files[b - 1].largest;
    Compaction(s, o, Numbers(files, a, b) + Numbers(outs, c, d),
               if c < d then Min(lo, outs[c].smallest) else lo, if c < d then Max(hi, outs[d - 1].largest) else hi)
  }

  /** Its keys are those from the smallest to the largest key of its inputs. */
  lemma RangesHull(levels: Levels, s: nat, o: nat, a: nat, b: nat, c: nat, d: nat)
    requires LevelsOk(levels) && 1 <= s <= o < |levels| && a < b <= |levels[s]| && c <= d <= |levels[o]|
    ensures var comp := FromRanges(levels, s, o, a, b, c, d); var files, outs := levels[s], levels[o];
            && (forall i | a <= i < b :: comp.lo <= files[i].smallest && files[i].largest <= comp.hi)
            && (forall i | c <= i < d :: comp.lo <= outs[i].smallest && outs[i].largest <= comp.hi)
            && (comp.lo == files[a].smallest || (c < d && comp.lo == outs[c].smallest))
            && (comp.hi == files[b - 1].largest || (c < d && comp.hi == outs[d - 1].largest))
  {
    var comp := FromRanges(levels, s, o, a, b, c, d);
    var files, outs := levels[s], levels[o];
    assert Sorted(files) && Sorted(outs);
    forall i | a <= i < b ensures files[a].smallest <= files[i].smallest && files[i].largest <= files[b - 1].largest {
      assert (a < i ==> files[a].largest <= files[i].smallest)
        && (i < b - 1 ==> files[i].largest <= files[b - 1].smallest);
    }
    forall i | c <= i < d ensures outs[c].smallest <= outs[i].smallest && outs[i].largest <= outs[d - 1].largest {
      assert (c < i ==> outs[c].largest <= outs[i].smallest) && (i < d - 1 ==> outs[i].largest <= outs[d - 1].smallest);
    }
  }

  /** By its number a file is known. */
  lemma ByNumber(levels: Levels, l: nat, a: nat, b: nat, m: nat, f: File)
    requires NumbersUnique(levels) && l < |levels| && a <= b <= |levels[l]| && IsFile(levels, m, f)
    requires f.number in Numbers(levels[l], a, b)
    ensures m == l && exists i :: a <= i < b && levels[l][i] == f
  {
    var i :| a <= i < b && levels[l][i].number == f.number;
    assert IsFile(levels, l, levels[l][i]);
  }

  lemma NumbersPresent(levels: Levels, l: nat, a: nat, b: nat)
    requires l < |levels| && a <= b <= |levels[l]|
    ensures forall n | n in Numbers(levels[l], a, b) :: Present(levels, n)
    ensures forall i | a <= i < b :: levels[l][i].number in Numbers(levels[l], a, b)
  {
    forall n | n in Numbers(levels[l], a, b) ensures Present(levels, n) {
      var i :| a <= i < b && levels[l][i].number == n;
      assert IsFile(levels, l, levels[l][i]);
    }
  }

  lemma RangesStanding(levels: Levels, running: Running, s: nat, o: nat, a: nat, b: nat, c: nat, d: nat)
    requires LevelsOk(levels) && 1 <= s <= o < |levels| && StartOk(levels[s], running, a, b)
    requires if s == o then c == d <= |levels[o]|
             else Covers(levels[o], levels[s][a].smallest, levels[s][b - 1].largest, c, d)
    ensures a < b <= |levels[s]| && c <= d <= |levels[o]| && Standing(levels, FromRanges(levels, s, o, a, b, c, d))
  {
    var files, outs := levels[s], levels[o];
    assert Sorted(files) && Sorted(outs);
    SpanOk(files, a, b);
    var comp := FromRanges(levels, s, o, a, b, c, d);
    assert files[a].number in Numbers(files, a, b);
    RangesPlaced(levels, running, s, o, a, b, c, d);
    RangesClear(levels, running, s, o, a, b, c, d);
  }

  lemma RangesPlaced(levels: Levels, running: Running, s: nat, o: nat, a: nat, b: nat, c: nat, d: nat)
    requires LevelsOk(levels) && 1 <= s <= o < |levels| && a < b <= |levels[s]| && c <= d <= |levels[o]|
    ensures Placed(levels, FromRanges(levels, s, o, a, b, c, d))
  {
    hide Numbers;
    var comp := FromRanges(levels, s, o, a, b, c, d);
    NumbersPresent(levels, s, a, b);
    NumbersPresent(levels, o, c, d);
    forall l: nat, f | IsFile(levels, l, f) && f.number in comp.inputs
      ensures (l == s || l == o) && comp.lo <= f.smallest && f.largest <= comp.hi
    {
      assert Sorted(levels[s]) && Sorted(levels[o]);
      if f.number in Numbers(levels[s], a, b) {
        ByNumber(levels, s, a, b, l, f);
      } else {
        ByNumber(levels, o, c, d, l, f);
      }
    }
  }

  lemma RangesClear(levels: Levels, running: Running, s: nat, o: nat, a: nat, b: nat, c: nat, d: nat)
    requires LevelsOk(levels) && 1 <= s <= o < |levels| && Clean(levels[s], a, b) && c <= d <= |levels[o]|
    requires if s == o then c == d else Covers(levels[o], levels[s][a].smallest, levels[s][b - 1].largest, c, d)
    ensures OutputClear(levels, FromRanges(levels, s, o, a, b, c, d))
    ensures StartClear(levels, FromRanges(levels, s, o, a, b, c, d))
  {
    hide Numbers, NumbersUnique;
    var files, outs, comp := levels[s], levels[o], FromRanges(levels, s, o, a, b, c, d);
    assert Sorted(files) && Sorted(outs);
    SpanOk(files, a, b);
    NumbersPresent(levels, s, a, b);
    NumbersPresent(levels, o, c, d);
    forall g | IsFile(levels, o, g) && g.number !in comp.inputs ensures !Overlaps(g, comp.lo, comp.hi) {
      var i :| 0 <= i < |outs| && outs[i] == g;
      if s == o {
        assert !(a <= i < b);
        CleanApart(files, a, b, i);
      } else {
        assert !(c <= i < d);
        if c < d && Overlaps(g, comp.lo, comp.hi) {
          HullCovered(outs, files[a].smallest, files[b - 1].largest, c, d, i);
        }
      }
    }
    forall f, g | IsFile(levels, s, f) && f.number in comp.inputs && IsFile(levels, s, g) && g.number !in comp.inputs
      ensures !Overlaps(g, f.smallest, f.largest)
    {
      StartFile(levels, s, o, a, b, c, d, f);
      var j :| 0 <= j < |files| && files[j] == g;
      assert !(a <= j < b);
      CleanApart(files, a, b, j);
    }
  }

  /** An input at the start level is one of the start range, and so within its keys. */
  lemma StartFile(levels: Levels, s: nat, o: nat, a: nat, b: nat, c: nat, d: nat, f: File)
    requires LevelsOk(levels) && 1 <= s <= o < |levels| && a < b <= |levels[s]| && c <= d <= |levels[o]|
    requires s == o ==> c == d
    requires IsFile(levels, s, f) && f.number in FromRanges(levels, s, o, a, b, c, d).inputs
    ensures levels[s][a].smallest <= f.smallest && f.largest <= levels[s][b - 1].largest
  {
    assert Sorted(levels[s]);
    if f.number in Numbers(levels[s], a, b) {
      ByNumber(levels, s, a, b, s, f);
    } else {
      ByNumber(levels, o, c, d, s, f);
      assert false;
    }
  }

  /** Some running compaction writes to this level and has keys between `lo` and `hi`. */
  ghost predicate Contested(running: Running, lo: Key, hi: Key, level: nat) {
    exists id | id in running :: running[id].output == level && running[id].lo <= hi && lo <= running[id].hi
  }

  lemma FreeIff(running: Running, lo: Key, hi: Key, level: nat)
    ensures RangeFree(running, lo, hi, level) <==> !Contested(running, lo, hi, level)
  {
  }

  /** No running compaction writes to this level within these keys. */
  predicate RangeFree(running: Running, lo: Key, hi: Key, level: nat) {
    forall a | a in running && running[a].output == level :: hi < running[a].lo || running[a].hi < lo
  }

  predicate ZeroFree(running: Running) {
    forall a | a in running :: running[a].start != 0
  }

  /** The checks before a compaction is registered make it compatible with those that run. */
  lemma ChecksSuffice(running: Running, c: Compaction)
    requires c.output > 0 ==> RangeFree(running, c.lo, c.hi, c.output)
    requires c.start == 0 && c.output > 0 ==> ZeroFree(running)
    requires forall n | n in c.inputs :: !Busy(running, n)
    ensures forall a | a in running :: Compatible(running[a], c)
  {
  }

  /** A compaction that is not from level 0, or the only one from there, needs no place among others in level 0. */
  lemma NoZeroOrder(levels: Levels, running: Running, c: Compaction)
    requires RunningOk(levels, running) && levels != [] && c.output > 0 && (c.start == 0 ==> ZeroFree(running))
    ensures forall a | a in running :: ZeroOrder(levels[0], running[a], c) && ZeroOrder(levels[0], c, running[a])
  {
    forall a | a in running ensures ZeroOrder(levels[0], running[a], c) && ZeroOrder(levels[0], c, running[a]) {
      assert Standing(levels, running[a]);
    }
  }

  /** One within level 0 may follow an input that goes down if that one shares no key with it. */
  lemma WithinZeroOrder(levels: Levels, running: Running, c: Compaction)
    requires levels != [] && c.output == 0
    requires forall a, i, j | a in running && running[a].start == 0 < running[a].output && 0 <= i < j < |levels[0]|
                              && levels[0][i].number in running[a].inputs
                              && levels[0][j].number in c.inputs :: !Overlaps(levels[0][i], c.lo, c.hi)
    ensures forall a | a in running :: ZeroOrder(levels[0], running[a], c) && ZeroOrder(levels[0], c, running[a])
  {
  }

  lemma RangesIdle(levels: Levels, running: Running, s: nat, o: nat, a: nat, b: nat, c: nat, d: nat)
    requires s < |levels| && o < |levels| && a < b <= |levels[s]| && c <= d <= |levels[o]|
    requires Idle(levels[s], running, a, b) && Idle(levels[o], running, c, d)
    ensures forall n | n in FromRanges(levels, s, o, a, b, c, d).inputs :: !Busy(running, n)
  {
  }

  // ---- What a compaction of chosen files of a level above 0 takes

  /** Positions `a` to `b` of the start level and `c` to `d` of the output level are what a compaction for positions `p`
      to `q` takes: cut clean, idle, and with more files where that is affordable. No other compaction writes there. */
  ghost predicate Takes(levels: Levels, running: Running, s: nat, o: nat, p: nat, q: nat, limit: nat,
      a: nat, b: nat, c: nat, d: nat)
    requires s < |levels| && o < |levels|
  {
    && a < b <= |levels[s]| && c <= d <= |levels[o]|
    && (exists x: nat, y: nat | CleanAround(levels[s], p, q, x, y) ::
          Idle(levels[s], running, x, y) && Completes(levels, running, s, o, x, y, limit, a, b, c, d))
    && var comp := FromRanges(levels, s, o, a, b, c, d); !Contested(running, comp.lo, comp.hi, o)
  }

  ghost predicate Completes(levels: Levels, running: Running, s: nat, o: nat, x: nat, y: nat, limit: nat,
      a: nat, b: nat, c: nat, d: nat)
    requires s < |levels| && o < |levels| && x < y <= |levels[s]| && c <= d <= |levels[o]|
  {
    if s == o then a == x && b == y && c == d == 0
    else
      && OutputFiles(levels[o], levels[s][x].smallest, levels[s][y - 1].largest, c, d)
      && Idle(levels[o], running, c, d) && Grown(levels[s], levels[o], running, x, y, c, d, limit, a, b)
  }

  ghost predicate TakenAs(levels: Levels, running: Running, s: nat, o: nat, p: nat, q: nat, limit: nat,
          comp: Compaction)
    requires s < |levels| && o < |levels|
  {
    exists a: nat, b: nat, c: nat, d: nat | Takes(levels, running, s, o, p, q, limit, a, b, c, d) ::
      comp == FromRanges(levels, s, o, a, b, c, d)
  }

  lemma SameAround(files: seq<File>, p: nat, q: nat, x: nat, y: nat, x': nat, y': nat)
    requires CleanAround(files, p, q, x, y) && CleanAround(files, p, q, x', y')
    ensures x' == x && y' == y
  {
  }

  lemma SameGrown(files: seq<File>, outs: seq<File>, running: Running, x: nat, y: nat, c: nat, d: nat, limit: nat,
          a: nat, b: nat, a': nat, b': nat)
    requires Sorted(files) && Clean(files, x, y) && c <= d <= |outs|
    requires Grown(files, outs, running, x, y, c, d, limit, a, b)
    requires Grown(files, outs, running, x, y, c, d, limit, a', b')
    ensures a' == a && b' == b
  {
    hide Affordable;
    if c < d {
      var lo, hi := HullLo(files, outs, x, c), HullHi(files, outs, y, d);
      assert Overlaps(files[x], lo, hi) && Overlaps(files[y - 1], lo, hi);
      if GrowsByOverlap(files, outs, running, x, y, c, d, limit, a, b)
         && GrowsByOverlap(files, outs, running, x, y, c, d, limit, a', b')
      {
        var u: nat, v: nat :| OverlapRange(files, lo, hi, u, v) && CleanAround(files, u, v, a, b);
        var u': nat, v': nat :| OverlapRange(files, lo, hi, u', v') && CleanAround(files, u', v', a', b');
        SameOverlap(files, lo, hi, u, v, u', v');
      }
    }
  }

  /** The choice is unique. */
  lemma SameTaken(levels: Levels, running: Running, s: nat, o: nat, p: nat, q: nat, limit: nat, a: nat, b: nat, c: nat,
          d: nat, a': nat, b': nat, c': nat, d': nat)
    requires LevelsOk(levels) && 1 <= s <= o < |levels| && p < q
    requires Takes(levels, running, s, o, p, q, limit, a, b, c, d)
    requires a' < b' <= |levels[s]| && c' <= d' <= |levels[o]|
    requires exists x: nat, y: nat | CleanAround(levels[s], p, q, x, y) ::
               Completes(levels, running, s, o, x, y, limit, a', b', c', d')
    ensures FromRanges(levels, s, o, a, b, c, d) == FromRanges(levels, s, o, a', b', c', d')
  {
    hide Idle, Completes, FromRanges, Contested, LevelsOk, LeastClean;
    var x: nat, y: nat :| CleanAround(levels[s], p, q, x, y)
                          && Completes(levels, running, s, o, x, y, limit, a, b, c, d);
    var x': nat, y': nat :| CleanAround(levels[s], p, q, x', y')
                            && Completes(levels, running, s, o, x', y', limit, a', b', c', d');
    SameAround(levels[s], p, q, x, y, x', y');
    SameCompleted(levels, running, s, o, x, y, limit, a, b, c, d, a', b', c', d');
  }

  lemma SameCompleted(levels: Levels, running: Running, s: nat, o: nat, x: nat, y: nat, limit: nat, a: nat, b: nat,
          c: nat, d: nat, a': nat, b': nat, c': nat, d': nat)
    requires LevelsOk(levels) && 1 <= s <= o < |levels| && Clean(levels[s], x, y)
    requires a < b <= |levels[s]| && c <= d <= |levels[o]| && Completes(levels, running, s, o, x, y, limit, a, b, c, d)
    requires a' < b' <= |levels[s]| && c' <= d' <= |levels[o]|
    requires Completes(levels, running, s, o, x, y, limit, a', b', c', d')
    ensures FromRanges(levels, s, o, a, b, c, d) == FromRanges(levels, s, o, a', b', c', d')
  {
    hide Idle, OutputFiles, Grown, NumbersUnique;
    if s != o {
      assert Sorted(levels[s]);
      SameOutput(levels[o], levels[s][x].smallest, levels[s][y - 1].largest, c, d, c', d');
      if c < d {
        SameGrown(levels[s], levels[o], running, x, y, c, d, limit, a, b, a', b');
      } else {
        NotGrown(levels[s], levels[o], running, x, y, c, d, limit, a, b);
        NotGrown(levels[s], levels[o], running, x, y, c', d', limit, a', b');
        assert Numbers(levels[o], c, d) == Numbers(levels[o], c', d') == {};
      }
    }
  }

  lemma NotGrown(files: seq<File>, outs: seq<File>, running: Running, x: nat, y: nat, c: nat, d: nat, limit: nat,
          a: nat, b: nat)
    requires x < y <= |files| && c == d <= |outs| && Grown(files, outs, running, x, y, c, d, limit, a, b)
    ensures a == x && b == y
  {
  }

  /** No compaction can be made of these files now. */
  ghost predicate NoneTaken(levels: Levels, running: Running, s: nat, o: nat, p: nat, q: nat, limit: nat)
    requires s < |levels| && o < |levels|
  {
    forall comp :: !TakenAs(levels, running, s, o, p, q, limit, comp)
  }

  lemma BusyStart(levels: Levels, running: Running, s: nat, o: nat, p: nat, q: nat, limit: nat, x: nat, y: nat)
    requires s < |levels| && o < |levels| && CleanAround(levels[s], p, q, x, y) && !Idle(levels[s], running, x, y)
    ensures NoneTaken(levels, running, s, o, p, q, limit)
  {
    hide Completes;
    forall x': nat, y': nat | CleanAround(levels[s], p, q, x', y') ensures x' == x && y' == y {
      SameAround(levels[s], p, q, x, y, x', y');
    }
  }

  lemma BusyOutput(levels: Levels, running: Running, s: nat, o: nat, p: nat, q: nat, limit: nat, x: nat, y: nat)
    requires s < o < |levels| && CleanAround(levels[s], p, q, x, y)
    requires !OutputIdle(levels[o], running, levels[s][x].smallest, levels[s][y - 1].largest)
    ensures NoneTaken(levels, running, s, o, p, q, limit)
  {
    hide Idle, OutputFiles, OutputIdle, Grown;
    forall a: nat, b: nat, c: nat, d: nat ensures !Takes(levels, running, s, o, p, q, limit, a, b, c, d) {
      if Takes(levels, running, s, o, p, q, limit, a, b, c, d) {
        var x': nat, y': nat :| CleanAround(levels[s], p, q, x', y')
                                && Completes(levels, running, s, o, x', y', limit, a, b, c, d);
        SameAround(levels[s], p, q, x, y, x', y');
        OutputUnique(levels[o], running, levels[s][x].smallest, levels[s][y - 1].largest, c, d);
      }
    }
  }

  /** The choice is made, and only another compaction that writes there can be in the way. */
  lemma TakesIff(levels: Levels, running: Running, s: nat, o: nat, p: nat, q: nat, limit: nat, x: nat, y: nat, a: nat,
          b: nat, c: nat, d: nat)
    requires LevelsOk(levels) && 1 <= s <= o < |levels| && p < q && CleanAround(levels[s], p, q, x, y)
    requires Idle(levels[s], running, x, y) && a < b <= |levels[s]| && c <= d <= |levels[o]|
    requires Completes(levels, running, s, o, x, y, limit, a, b, c, d)
    ensures var comp := FromRanges(levels, s, o, a, b, c, d);
            if RangeFree(running, comp.lo, comp.hi, o) then TakenAs(levels, running, s, o, p, q, limit, comp)
            else NoneTaken(levels, running, s, o, p, q, limit)
  {
    hide Idle, Completes, FromRanges, RangeFree, Contested;
    var comp := FromRanges(levels, s, o, a, b, c, d);
    FreeIff(running, comp.lo, comp.hi, o);
    if RangeFree(running, comp.lo, comp.hi, o) {
      assert Takes(levels, running, s, o, p, q, limit, a, b, c, d);
    } else {
      forall a': nat, b': nat, c': nat, d': nat ensures !Takes(levels, running, s, o, p, q, limit, a', b', c', d') {
        if Takes(levels, running, s, o, p, q, limit, a', b', c', d') {
          SameTaken(levels, running, s, o, p, q, limit, a', b', c', d', a, b, c, d);
        }
      }
    }
  }

  /** What goes is never less than what was chosen. */
  lemma GrownWider(files: seq<File>, outs: seq<File>, running: Running, x: nat, y: nat, c: nat, d: nat, limit: nat,
          a: nat, b: nat)
    requires Sorted(files) && Clean(files, x, y) && c <= d <= |outs|
    requires Grown(files, outs, running, x, y, c, d, limit, a, b)
    ensures a <= x && y <= b
  {
    hide Affordable;
    if c < d {
      var lo, hi := HullLo(files, outs, x, c), HullHi(files, outs, y, d);
      SpanOk(files, x, y);
      assert Overlaps(files[x], lo, hi) && Overlaps(files[y - 1], lo, hi);
      assert CleanWithin(files, lo, hi, x, y);
      if GrowsByOverlap(files, outs, running, x, y, c, d, limit, a, b) {
        var u: nat, v: nat :| OverlapRange(files, lo, hi, u, v) && CleanAround(files, u, v, a, b);
      }
    }
  }

  /** Another compaction that writes to the keys of the chosen files is in the way of any choice. */
  lemma EarlyConflict(levels: Levels, running: Running, s: nat, o: nat, p: nat, q: nat, limit: nat, x: nat, y: nat)
    requires LevelsOk(levels) && 1 <= s < o < |levels| && CleanAround(levels[s], p, q, x, y)
    requires !RangeFree(running, levels[s][x].smallest, levels[s][y - 1].largest, o)
    ensures NoneTaken(levels, running, s, o, p, q, limit)
  {
    hide Idle, OutputFiles, Grown;
    var files := levels[s];
    assert Sorted(files);
    forall a: nat, b: nat, c: nat, d: nat ensures !Takes(levels, running, s, o, p, q, limit, a, b, c, d) {
      if Takes(levels, running, s, o, p, q, limit, a, b, c, d) {
        var x': nat, y': nat :| CleanAround(files, p, q, x', y')
                                && Completes(levels, running, s, o, x', y', limit, a, b, c, d);
        SameAround(files, p, q, x, y, x', y');
        GrownWider(files, levels[o], running, x, y, c, d, limit, a, b);
      }
    }
  }

  /** All chosen files go. */
  lemma TakenHas(levels: Levels, running: Running, s: nat, o: nat, p: nat, q: nat, limit: nat, comp: Compaction, i: nat)
    requires LevelsOk(levels) && 1 <= s <= o < |levels| && TakenAs(levels, running, s, o, p, q, limit, comp)
    requires p <= i < q
    ensures i < |levels[s]| && levels[s][i].number in comp.inputs && comp.start == s && comp.output == o
  {
    hide Idle, Completes, Contested, NumbersUnique, FromRanges;
    var a: nat, b: nat, c: nat, d: nat :| Takes(levels, running, s, o, p, q, limit, a, b, c, d)
                                          && comp == FromRanges(levels, s, o, a, b, c, d);
    var x: nat, y: nat :| CleanAround(levels[s], p, q, x, y)
                          && Completes(levels, running, s, o, x, y, limit, a, b, c, d);
    CompletesWider(levels, running, s, o, x, y, limit, a, b, c, d);
    RangesHave(levels, s, o, a, b, c, d, i);
  }

  lemma CompletesWider(levels: Levels, running: Running, s: nat, o: nat, x: nat, y: nat, limit: nat, a: nat, b: nat,
          c: nat, d: nat)
    requires LevelsOk(levels) && 1 <= s <= o < |levels| && Clean(levels[s], x, y) && c <= d <= |levels[o]|
    requires Completes(levels, running, s, o, x, y, limit, a, b, c, d)
    ensures a <= x && y <= b
  {
    hide Idle, OutputFiles, Grown, NumbersUnique;
    if s != o {
      assert Sorted(levels[s]);
      GrownWider(levels[s], levels[o], running, x, y, c, d, limit, a, b);
    }
  }

  lemma RangesHave(levels: Levels, s: nat, o: nat, a: nat, b: nat, c: nat, d: nat, i: nat)
    requires s < |levels| && o < |levels| && a <= i < b <= |levels[s]| && c <= d <= |levels[o]|
    ensures var comp := FromRanges(levels, s, o, a, b, c, d);
            levels[s][i].number in comp.inputs && comp.start == s && comp.output == o
  {
    NumbersPresent(levels, s, a, b);
  }

  // ---- Level 0

  ghost predicate ZeroInputs(files: seq<File>, picked: set<nat>) {
    picked != {} && forall i | i in picked :: i < |files|
  }

  function NumbersAt(files: seq<File>, picked: set<nat>): set<nat> {
    set i | i in picked && i < |files| :: files[i].number
  }

  function SizeAt(files: seq<File>, picked: set<nat>, n: nat): nat
    requires n <= |files|
  {
    if n == 0 then 0 else SizeAt(files, picked, n - 1) + (if n - 1 in picked then files[n - 1].size else 0)
  }

  /** Of neighbours this is their total size. */
  lemma {:induction false} SizeOfRange(files: seq<File>, picked: set<nat>, a: nat, b: nat, n: nat)
    requires a <= b <= n <= |files| && forall i: nat | i < n :: i in picked <==> a <= i < b
    ensures SizeAt(files, picked, n) == TotalSize(files, a, b)
  {
    if n > 0 {
      if n == b {
        if a < b {
          SizeOfRange(files, picked, a, b - 1, n - 1);
        } else {
          SizeOfRange(files, picked, n - 1, n - 1, n - 1);
        }
      } else {
        SizeOfRange(files, picked, a, b, n - 1);
      }
    }
  }

  /** Files of level 0 that are not picked share no key with picked ones. */
  ghost predicate ZeroClosed(files: seq<File>, picked: set<nat>) {
    forall i, j | i in picked && 0 <= i < |files| && 0 <= j < |files| && j !in picked ::
      !Overlaps(files[j], files[i].smallest, files[i].largest)
  }

  /** The keys that picked files of level 0 span. */
  ghost predicate ZeroSpan(files: seq<File>, picked: set<nat>, lo: Key, hi: Key) {
    && (forall i | i in picked && i < |files| :: lo <= files[i].smallest && files[i].largest <= hi)
    && (exists i :: i in picked && i < |files| && files[i].smallest == lo)
    && (exists i :: i in picked && i < |files| && files[i].largest == hi)
  }

  method GetZeroSpan(files: seq<File>, picked: set<nat>) returns (lo: Key, hi: Key)
    requires ZeroInputs(files, picked) && RangesOk(files)
    ensures ZeroSpan(files, picked, lo, hi) && lo <= hi
  {
    var first := true;
    ghost var x, y: nat := 0, 0;
    lo, hi := 0, 0;
    for i := 0 to |files|
      invariant first ==> forall k | k in picked :: k >= i
      invariant !first ==>
                  x in picked && x < i && files[x].smallest == lo && y in picked && y < i && files[y].largest == hi
      invariant !first ==> forall k | k in picked && k < i :: lo <= files[k].smallest && files[k].largest <= hi
    {
      if i in picked {
        var f := files[i];
        if first || f.smallest < lo {
          lo, x := f.smallest, i;
        }
        if first || f.largest > hi {
          hi, y := f.largest, i;
        }
        first := false;
      }
    }
    var n :| n in picked;
    assert !first;
  }

  lemma WiderZero(files: seq<File>, picked: set<nat>, lo: Key, hi: Key, picked': set<nat>, lo': Key, hi': Key)
    requires ZeroSpan(files, picked, lo, hi) && ZeroSpan(files, picked', lo', hi') && picked <= picked'
    ensures lo' <= lo && hi <= hi'
  {
  }

  /** The least interval around another one that no file which meets it reaches beyond. */
  ghost predicate LeastSpan(files: seq<File>, lo: Key, hi: Key, lo': Key, hi': Key) {
    && lo' <= lo && hi <= hi' && ClosedSpan(files, lo', hi')
    && forall l: Key, h: Key | ClosedSpan(files, l, h) && l <= lo && hi <= h :: l <= lo' && hi' <= h
  }

  /** Exactly the files that meet the least such interval. */
  ghost predicate MeetsSpan(files: seq<File>, lo: Key, hi: Key, picked: set<nat>) {
    exists lo': Key, hi': Key | LeastSpan(files, lo, hi, lo', hi') ::
      forall i: nat :: i in picked <==> i < |files| && Overlaps(files[i], lo', hi')
  }

  lemma SameSpan(files: seq<File>, lo: Key, hi: Key, picked: set<nat>, picked': set<nat>)
    requires MeetsSpan(files, lo, hi, picked) && MeetsSpan(files, lo, hi, picked')
    ensures picked' == picked
  {
    var l: Key, h: Key :| LeastSpan(files, lo, hi, l, h)
                          && forall i: nat :: i in picked <==> i < |files| && Overlaps(files[i], l, h);
    var l': Key, h': Key :| LeastSpan(files, lo, hi, l', h')
                            && forall i: nat :: i in picked' <==> i < |files| && Overlaps(files[i], l', h');
    assert l == l' && h == h';
  }

  /** More files of level 0: they meet the keys of both levels, fit the limit, and need no more of the output level. */
  ghost predicate ZeroMore(files: seq<File>, outs: seq<File>, picked: set<nat>, lo: Key, hi: Key, c: nat, d: nat,
      limit: nat, more: set<nat>, lo': Key, hi': Key)
    requires c < d <= |outs|
  {
    && MeetsSpan(files, Min(lo, outs[c].smallest), Max(hi, outs[d - 1].largest), more)
    && |more| > |picked| && TotalSize(outs, c, d) + SizeAt(files, more, |files|) < limit
    && ZeroSpan(files, more, lo', hi') && Covers(outs, lo', hi', c, d)
  }

  ghost predicate ZeroGrown(files: seq<File>, outs: seq<File>, picked: set<nat>, lo: Key, hi: Key, c: nat, d: nat,
      limit: nat, picked': set<nat>, lo': Key, hi': Key)
    requires c <= d <= |outs|
  {
    if c < d && exists p: set<nat>, l: Key, h: Key :: ZeroMore(files, outs, picked, lo, hi, c, d, limit, p, l, h)
    then ZeroMore(files, outs, picked, lo, hi, c, d, limit, picked', lo', hi')
    else picked' == picked && lo' == lo && hi' == hi
  }

  /** Finds the inputs at the output level, then tries to take more files of level 0 that need no more there. */
  method SetupZero(levels: Levels, running: Running, o: nat, picked: set<nat>, limit: nat)
    returns (ok: bool, picked': set<nat>, lo: Key, hi: Key, c: nat, d: nat, ghost lo0: Key, ghost hi0: Key)
    requires LevelsOk(levels) && 1 <= o < |levels| && ZeroInputs(levels[0], picked) && ZeroClosed(levels[0], picked)
    ensures ZeroSpan(levels[0], picked, lo0, hi0) && (ok <==> OutputIdle(levels[o], running, lo0, hi0))
    ensures ok ==>
              && OutputFiles(levels[o], lo0, hi0, c, d) && c <= d <= |levels[o]|
              && ZeroGrown(levels[0], levels[o], picked, lo0, hi0, c, d, limit, picked', lo, hi)
    ensures ok ==> picked <= picked' && ZeroInputs(levels[0], picked') && ZeroClosed(levels[0], picked')
    ensures ok ==> ZeroSpan(levels[0], picked', lo, hi) && lo <= hi
    ensures ok ==> Covers(levels[o], lo, hi, c, d) && Idle(levels[o], running, c, d)
  {
    hide Idle, OutputFiles, OutputIdle, ZeroSpan, MeetsSpan, ZeroMore;
    var files, outs := levels[0], levels[o];
    assert Sorted(outs);
    picked' := picked;
    lo, hi := GetZeroSpan(files, picked);
    lo0, hi0 := lo, hi;
    ok, c, d := OutputInputs(outs, running, lo, hi);
    if ok {
      CoverBounds(outs, lo, hi, c, d);
    }
    if !ok || c == d {
      return;
    }
    var more, lo', hi' := GetOverlappingZero(files, Min(lo, outs[c].smallest), Max(hi, outs[d - 1].largest));
    FoundSpan(files, Min(lo, outs[c].smallest), Max(hi, outs[d - 1].largest), more, lo', hi');
    ZeroGrows(files, picked, lo, hi, more, lo', hi');
    lo', hi' := GetZeroSpan(files, more);
    OnlyMore(files, outs, picked, lo, hi, c, d, limit, more, lo', hi');
    if |more| > |picked| && TotalSize(outs, c, d) + SizeAt(files, more, |files|) < limit {
      WiderZero(files, picked, lo, hi, more, lo', hi');
      var ok', c', d' := OutputInputs(outs, running, lo', hi');
      StillCovers(outs, running, lo, hi, c, d, lo', hi', ok', c', d');
      if ok' && d' + c == d + c' {
        picked', lo, hi := more, lo', hi';
      }
    }
  }

  lemma FoundSpan(files: seq<File>, lo: Key, hi: Key, picked: set<nat>, lo': Key, hi': Key)
    requires lo' <= lo && hi <= hi' && forall i | i in picked :: i < |files|
    requires forall i | 0 <= i < |files| :: i in picked <==> Overlaps(files[i], lo', hi')
    requires forall i | i in picked :: lo' <= files[i].smallest && files[i].largest <= hi'
    requires forall l: Key, h: Key | ClosedSpan(files, l, h) && l <= lo && hi <= h :: l <= lo' && hi' <= h
    ensures MeetsSpan(files, lo, hi, picked)
  {
    assert LeastSpan(files, lo, hi, lo', hi');
  }

  lemma SameZeroSpan(files: seq<File>, picked: set<nat>, lo: Key, hi: Key, lo': Key, hi': Key)
    requires ZeroSpan(files, picked, lo, hi) && ZeroSpan(files, picked, lo', hi')
    ensures lo' == lo && hi' == hi
  {
  }

  /** There is only one set of files to grow to. */
  lemma OnlyMore(files: seq<File>, outs: seq<File>, picked: set<nat>, lo: Key, hi: Key, c: nat, d: nat, limit: nat,
          more: set<nat>, lo': Key, hi': Key)
    requires c < d <= |outs| && ZeroSpan(files, more, lo', hi')
    requires MeetsSpan(files, Min(lo, outs[c].smallest), Max(hi, outs[d - 1].largest), more)
    ensures forall p: set<nat>, l: Key, h: Key :: ZeroMore(files, outs, picked, lo, hi, c, d, limit, p, l, h) <==>
              && p == more && l == lo' && h == hi' && |more| > |picked|
              && TotalSize(outs, c, d) + SizeAt(files, more, |files|) < limit && Covers(outs, lo', hi', c, d)
  {
    hide ZeroSpan, MeetsSpan, Covers;
    forall p: set<nat>, l: Key, h: Key | ZeroMore(files, outs, picked, lo, hi, c, d, limit, p, l, h)
      ensures p == more && l == lo' && h == hi'
    {
      SameSpan(files, Min(lo, outs[c].smallest), Max(hi, outs[d - 1].largest), more, p);
      SameZeroSpan(files, more, lo', hi', l, h);
    }
  }

  lemma ZeroGrows(files: seq<File>, picked: set<nat>, lo: Key, hi: Key, more: set<nat>, lo': Key, hi': Key)
    requires ZeroInputs(files, picked) && RangesOk(files) && ZeroSpan(files, picked, lo, hi) && lo' <= lo && hi <= hi'
    requires forall i | 0 <= i < |files| :: i in more <==> Overlaps(files[i], lo', hi')
    requires forall i | i in more :: i < |files|
    requires forall i | i in more :: lo' <= files[i].smallest && files[i].largest <= hi'
    ensures picked <= more && ZeroInputs(files, more) && ZeroClosed(files, more)
  {
  }

  /** The compaction of picked files of level 0 with positions `c` to `d` of the output level. */
  function FromZero(levels: Levels, o: nat, picked: set<nat>, lo: Key, hi: Key, c: nat, d: nat): Compaction
    requires levels != [] && o < |levels| && c <= d <= |levels[o]|
  {
    var outs := levels[o];
    Compaction(0, o, NumbersAt(levels[0], picked) + Numbers(outs, c, d),
               if c < d then Min(lo, outs[c].smallest) else lo, if c < d then Max(hi, outs[d - 1].largest) else hi)
  }

  // ---- What a compaction of chosen files of level 0 takes

  ghost predicate ZeroTakes(levels: Levels, running: Running, o: nat, wanted: set<nat>, limit: nat,
      picked: set<nat>, lo: Key, hi: Key, c: nat, d: nat)
    requires levels != [] && o < |levels|
  {
    && c <= d <= |levels[o]| && Idle(levels[o], running, c, d)
    && (exists l: Key, h: Key | ZeroSpan(levels[0], wanted, l, h) ::
          && OutputFiles(levels[o], l, h, c, d)
          && ZeroGrown(levels[0], levels[o], wanted, l, h, c, d, limit, picked, lo, hi))
    && var comp := FromZero(levels, o, picked, lo, hi, c, d); !Contested(running, comp.lo, comp.hi, o)
  }

  ghost predicate ZeroTakenAs(levels: Levels, running: Running, o: nat, wanted: set<nat>, limit: nat, comp: Compaction)
    requires levels != [] && o < |levels|
  {
    exists picked: set<nat>, lo: Key, hi: Key, c: nat, d: nat
      | ZeroTakes(levels, running, o, wanted, limit, picked, lo, hi, c, d) ::
        comp == FromZero(levels, o, picked, lo, hi, c, d)
  }

  lemma SameZeroTaken(levels: Levels, running: Running, o: nat, wanted: set<nat>, limit: nat, picked: set<nat>, lo: Key,
          hi: Key, c: nat, d: nat, l: Key, h: Key, picked': set<nat>, lo': Key, hi': Key, c': nat, d': nat)
    requires levels != [] && o < |levels| && ZeroTakes(levels, running, o, wanted, limit, picked, lo, hi, c, d)
    requires ZeroSpan(levels[0], wanted, l, h) && OutputFiles(levels[o], l, h, c', d') && c' <= d' <= |levels[o]|
    requires ZeroGrown(levels[0], levels[o], wanted, l, h, c', d', limit, picked', lo', hi')
    ensures FromZero(levels, o, picked, lo, hi, c, d) == FromZero(levels, o, picked', lo', hi', c', d')
  {
    hide Idle, OutputFiles, ZeroSpan, ZeroMore;
    var l0: Key, h0: Key :| ZeroSpan(levels[0], wanted, l0, h0) && OutputFiles(levels[o], l0, h0, c, d)
                            && ZeroGrown(levels[0], levels[o], wanted, l0, h0, c, d, limit, picked, lo, hi);
    SameZeroSpan(levels[0], wanted, l, h, l0, h0);
    SameOutput(levels[o], l, h, c, d, c', d');
    if c < d {
      if ZeroMore(levels[0], levels[o], wanted, l, h, c, d, limit, picked, lo, hi)
         && ZeroMore(levels[0], levels[o], wanted, l, h, c, d, limit, picked', lo', hi')
      {
        SameMore(levels[0], levels[o], wanted, l, h, c, d, limit, picked, lo, hi, picked', lo', hi');
      }
    } else {
      assert Numbers(levels[o], c, d) == Numbers(levels[o], c', d') == {};
    }
  }

  lemma SameMore(files: seq<File>, outs: seq<File>, wanted: set<nat>, l: Key, h: Key, c: nat, d: nat, limit: nat,
          picked: set<nat>, lo: Key, hi: Key, picked': set<nat>, lo': Key, hi': Key)
    requires c < d <= |outs| && ZeroMore(files, outs, wanted, l, h, c, d, limit, picked, lo, hi)
    requires ZeroMore(files, outs, wanted, l, h, c, d, limit, picked', lo', hi')
    ensures picked' == picked && lo' == lo && hi' == hi
  {
    OnlyMore(files, outs, wanted, l, h, c, d, limit, picked, lo, hi);
  }

  ghost predicate ZeroNoneTaken(levels: Levels, running: Running, o: nat, wanted: set<nat>, limit: nat)
    requires levels != [] && o < |levels|
  {
    forall comp :: !ZeroTakenAs(levels, running, o, wanted, limit, comp)
  }

  lemma ZeroBusyOutput(levels: Levels, running: Running, o: nat, wanted: set<nat>, limit: nat, l: Key, h: Key)
    requires levels != [] && o < |levels| && ZeroSpan(levels[0], wanted, l, h) && !OutputIdle(levels[o], running, l, h)
    ensures ZeroNoneTaken(levels, running, o, wanted, limit)
  {
    hide Idle, OutputFiles, OutputIdle, ZeroSpan, ZeroGrown;
    forall picked: set<nat>, lo: Key, hi: Key, c: nat, d: nat
      ensures !ZeroTakes(levels, running, o, wanted, limit, picked, lo, hi, c, d)
    {
      if ZeroTakes(levels, running, o, wanted, limit, picked, lo, hi, c, d) {
        var l0: Key, h0: Key :| ZeroSpan(levels[0], wanted, l0, h0) && OutputFiles(levels[o], l0, h0, c, d);
        SameZeroSpan(levels[0], wanted, l, h, l0, h0);
        OutputUnique(levels[o], running, l, h, c, d);
      }
    }
  }

  lemma ZeroTakesIff(levels: Levels, running: Running, o: nat, wanted: set<nat>, limit: nat, l: Key, h: Key,
          picked: set<nat>, lo: Key, hi: Key, c: nat, d: nat)
    requires levels != [] && o < |levels| && ZeroSpan(levels[0], wanted, l, h) && c <= d <= |levels[o]|
    requires OutputFiles(levels[o], l, h, c, d) && Idle(levels[o], running, c, d)
    requires ZeroGrown(levels[0], levels[o], wanted, l, h, c, d, limit, picked, lo, hi)
    ensures var comp := FromZero(levels, o, picked, lo, hi, c, d);
            if RangeFree(running, comp.lo, comp.hi, o) then ZeroTakenAs(levels, running, o, wanted, limit, comp)
            else ZeroNoneTaken(levels, running, o, wanted, limit)
  {
    hide Idle, OutputFiles, ZeroSpan, ZeroGrown, FromZero, RangeFree, Contested;
    var comp := FromZero(levels, o, picked, lo, hi, c, d);
    FreeIff(running, comp.lo, comp.hi, o);
    if RangeFree(running, comp.lo, comp.hi, o) {
      assert ZeroTakes(levels, running, o, wanted, limit, picked, lo, hi, c, d);
    } else {
      forall picked': set<nat>, lo': Key, hi': Key, c': nat, d': nat
        ensures !ZeroTakes(levels, running, o, wanted, limit, picked', lo', hi', c', d')
      {
        if ZeroTakes(levels, running, o, wanted, limit, picked', lo', hi', c', d') {
          SameZeroTaken(levels, running, o, wanted, limit, picked', lo', hi', c', d', l, h, picked, lo, hi, c, d);
        }
      }
    }
  }

  lemma ZeroEarlyConflict(levels: Levels, running: Running, o: nat, wanted: set<nat>, limit: nat, lo: Key, hi: Key)
    requires levels != [] && RangesOk(levels[0]) && o < |levels| && ZeroInputs(levels[0], wanted)
    requires !RangeFree(running, lo, hi, o) && exists i :: i in wanted && i < |levels[0]| && levels[0][i].smallest <= lo
    requires exists i :: i in wanted && i < |levels[0]| && hi <= levels[0][i].largest
    ensures ZeroNoneTaken(levels, running, o, wanted, limit)
  {
    hide Idle, OutputFiles, ZeroGrown;
    forall picked: set<nat>, lo': Key, hi': Key, c: nat, d: nat
      ensures !ZeroTakes(levels, running, o, wanted, limit, picked, lo', hi', c, d)
    {
      if ZeroTakes(levels, running, o, wanted, limit, picked, lo', hi', c, d) {
        var l: Key, h: Key :| ZeroSpan(levels[0], wanted, l, h) && OutputFiles(levels[o], l, h, c, d)
                              && ZeroGrown(levels[0], levels[o], wanted, l, h, c, d, limit, picked, lo', hi');
        ZeroGrownWider(levels[0], levels[o], wanted, l, h, c, d, limit, picked, lo', hi');
      }
    }
  }

  /** What goes is never less than what was chosen. */
  lemma ZeroGrownWider(files: seq<File>, outs: seq<File>, wanted: set<nat>, l: Key, h: Key, c: nat, d: nat, limit: nat,
          picked: set<nat>, lo: Key, hi: Key)
    requires RangesOk(files) && ZeroInputs(files, wanted) && ZeroSpan(files, wanted, l, h) && c <= d <= |outs|
    requires ZeroGrown(files, outs, wanted, l, h, c, d, limit, picked, lo, hi)
    ensures wanted <= picked && lo <= l && h <= hi
  {
    if c < d && ZeroMore(files, outs, wanted, l, h, c, d, limit, picked, lo, hi) {
      SpanHas(files, wanted, l, h, Min(l, outs[c].smallest), Max(h, outs[d - 1].largest), picked);
      WiderZero(files, wanted, l, h, picked, lo, hi);
    }
  }

  lemma SpanHas(files: seq<File>, wanted: set<nat>, l: Key, h: Key, lo: Key, hi: Key, picked: set<nat>)
    requires RangesOk(files) && ZeroInputs(files, wanted) && ZeroSpan(files, wanted, l, h) && lo <= l && h <= hi
    requires MeetsSpan(files, lo, hi, picked)
    ensures wanted <= picked
  {
    var lo': Key, hi': Key :| LeastSpan(files, lo, hi, lo', hi')
                              && forall i: nat :: i in picked <==> i < |files| && Overlaps(files[i], lo', hi');
    forall i | i in wanted ensures i in picked {
      assert Overlaps(files[i], lo', hi');
    }
  }

  lemma ZeroTakenHas(levels: Levels, running: Running, o: nat, wanted: set<nat>, limit: nat, comp: Compaction, i: nat)
    requires LevelsOk(levels) && o < |levels| && ZeroTakenAs(levels, running, o, wanted, limit, comp)
    requires ZeroInputs(levels[0], wanted) && i in wanted
    ensures levels[0][i].number in comp.inputs && comp.start == 0 && comp.output == o
  {
    hide Idle, OutputFiles, ZeroGrown, Contested, NumbersUnique;
    var picked: set<nat>, lo: Key, hi: Key, c: nat, d: nat :|
      ZeroTakes(levels, running, o, wanted, limit, picked, lo, hi, c, d)
      && comp == FromZero(levels, o, picked, lo, hi, c, d);
    var l: Key, h: Key :| ZeroSpan(levels[0], wanted, l, h)
                          && ZeroGrown(levels[0], levels[o], wanted, l, h, c, d, limit, picked, lo, hi);
    ZeroGrownWider(levels[0], levels[o], wanted, l, h, c, d, limit, picked, lo, hi);
  }

  lemma {:induction false} ZeroSpanExists(files: seq<File>, picked: set<nat>) returns (lo: Key, hi: Key)
    requires ZeroInputs(files, picked)
    ensures ZeroSpan(files, picked, lo, hi)
    decreases |picked|
  {
    var n :| n in picked;
    var rest := picked - {n};
    if rest == {} {
      assert picked == {n};
      lo, hi := files[n].smallest, files[n].largest;
    } else {
      lo, hi := ZeroSpanExists(files, rest);
      var x :| x in rest && x < |files| && files[x].smallest == lo;
      var y :| y in rest && y < |files| && files[y].largest == hi;
      lo, hi := Min(files[n].smallest, lo), Max(files[n].largest, hi);
      assert x in picked && y in picked;
      forall i | i in picked && i < |files| ensures lo <= files[i].smallest && files[i].largest <= hi {
        assert i == n || i in rest;
      }
    }
  }

  /** Every interval has a least one around it that no file reaches beyond. */
  lemma {:induction false} SpanExists(files: seq<File>, lo: Key, hi: Key) returns (picked: set<nat>)
    ensures MeetsSpan(files, lo, hi, picked)
    decreases Beyond(files, lo, hi)
  {
    if i :| 0 <= i < |files| && Overlaps(files[i], lo, hi) && (files[i].smallest < lo || files[i].largest > hi) {
      var lo', hi' := Min(lo, files[i].smallest), Max(hi, files[i].largest);
      assert files[i] in files;
      BeyondShrinks(files, lo, hi, lo', hi');
      picked := SpanExists(files, lo', hi');
      WiderSpan(files, lo, hi, lo', hi', picked, i);
    } else {
      picked := set i: nat | i < |files| && Overlaps(files[i], lo, hi);
      assert LeastSpan(files, lo, hi, lo, hi);
    }
  }

  lemma WiderSpan(files: seq<File>, lo: Key, hi: Key, lo': Key, hi': Key, picked: set<nat>, i: nat)
    requires i < |files| && Overlaps(files[i], lo, hi) && MeetsSpan(files, lo', hi', picked)
    requires lo' == Min(lo, files[i].smallest) && hi' == Max(hi, files[i].largest)
    ensures MeetsSpan(files, lo, hi, picked)
  {
    var l: Key, h: Key :| LeastSpan(files, lo', hi', l, h)
                          && forall j: nat :: j in picked <==> j < |files| && Overlaps(files[j], l, h);
    forall l': Key, h': Key | ClosedSpan(files, l', h') && l' <= lo && hi <= h' ensures l' <= l && h <= h' {
      assert Overlaps(files[i], l', h');
    }
    assert LeastSpan(files, lo, hi, l, h);
  }

  /** Output files that are idle for an interval are idle for a smaller one. */
  lemma SmallerIdle(files: seq<File>, running: Running, lo: Key, hi: Key, lo': Key, hi': Key)
    requires Sorted(files) && lo' <= lo <= hi <= hi' && !OutputIdle(files, running, lo, hi)
    ensures !OutputIdle(files, running, lo', hi')
  {
    var c: nat, d: nat :| OutputFiles(files, lo, hi, c, d) && !Idle(files, running, c, d);
    var u, v := OverlapExists(files, lo', hi');
    var i: nat :| c <= i < d && Overlaps(files[i], lo, hi);
    assert Overlaps(files[i], lo', hi');
    var x, y := CleanExists(files, u, v);
    CoverFacts(files, lo', hi', u, v, x, y);
    assert forall j: nat | j < |files| && Overlaps(files[j], lo, hi) :: Overlaps(files[j], lo', hi') && x <= j < y;
    assert OutputFiles(files, lo', hi', x, y) && x <= c && d <= y;
    var j :| c <= j < d && j < |files| && Busy(running, files[j].number);
    assert x <= j < y;
  }

  lemma {:induction false} OverlapExists(files: seq<File>, lo: Key, hi: Key) returns (u: nat, v: nat)
    requires Sorted(files)
    ensures OverlapRange(files, lo, hi, u, v)
    decreases |files|
  {
    if files == [] {
      u, v := 0, 0;
    } else {
      var n := |files| - 1;
      u, v := OverlapExists(files[..n], lo, hi);
      if Overlaps(files[n], lo, hi) {
        if u == v {
          u := n;
        } else {
          LastOverlaps(files, lo, hi, u, v);
        }
        v := n + 1;
      }
    }
  }

  lemma LastOverlaps(files: seq<File>, lo: Key, hi: Key, u: nat, v: nat)
    requires Sorted(files) && files != [] && OverlapRange(files[..|files| - 1], lo, hi, u, v) && u < v
    requires Overlaps(files[|files| - 1], lo, hi)
    ensures v == |files| - 1
  {
    var n := |files| - 1;
    assert Overlaps(files[..n][u], lo, hi) && (v < n ==> !Overlaps(files[..n][v], lo, hi));
    forall i | u < i < n ensures Overlaps(files[..n][i], lo, hi) {
      assert files[u].largest <= files[i].smallest && files[i].largest <= files[n].smallest;
    }
  }

  lemma ByNumberAt(levels: Levels, picked: set<nat>, m: nat, f: File)
    requires levels != [] && NumbersUnique(levels) && IsFile(levels, m, f) && f.number in NumbersAt(levels[0], picked)
    ensures m == 0 && exists i :: i in picked && i < |levels[0]| && levels[0][i] == f
  {
    var i :| i in picked && i < |levels[0]| && levels[0][i].number == f.number;
    assert IsFile(levels, 0, levels[0][i]);
  }

  lemma ZeroStanding(levels: Levels, o: nat, picked: set<nat>, lo: Key, hi: Key, c: nat, d: nat)
    requires LevelsOk(levels) && o < |levels| && ZeroInputs(levels[0], picked) && ZeroSpan(levels[0], picked, lo, hi)
    requires lo <= hi
    requires if o == 0 then c == d <= |levels[o]| else Covers(levels[o], lo, hi, c, d)
    requires if o == 0 then Adjacent(picked) else ZeroClosed(levels[0], picked) && forall l | 1 <= l < o ::
               levels[l] == []
    ensures c <= d <= |levels[o]| && Standing(levels, FromZero(levels, o, picked, lo, hi, c, d))
  {
    var p :| p in picked;
    assert levels[0][p].number in FromZero(levels, o, picked, lo, hi, c, d).inputs;
    ZeroPlaced(levels, o, picked, lo, hi, c, d);
    ZeroOrdered(levels, o, picked, lo, hi, c, d);
    ZeroOutputClear(levels, o, picked, lo, hi, c, d);
    hide LevelsOk, ZeroInputs, ZeroSpan, Covers, Adjacent, ZeroClosed, Placed, OutputClear, ZeroClear, ZeroTogether;
  }

  lemma ZeroOutputClear(levels: Levels, o: nat, picked: set<nat>, lo: Key, hi: Key, c: nat, d: nat)
    requires LevelsOk(levels) && o < |levels| && lo <= hi
    requires if o == 0 then c == d <= |levels[o]| else Covers(levels[o], lo, hi, c, d)
    ensures c <= d <= |levels[o]| && OutputClear(levels, FromZero(levels, o, picked, lo, hi, c, d))
  {
    var outs, comp := levels[o], FromZero(levels, o, picked, lo, hi, c, d);
    if o > 0 {
      hide Numbers, NumbersAt, NumbersUnique;
      assert Sorted(outs);
      NumbersPresent(levels, o, c, d);
      forall g | IsFile(levels, o, g) && g.number !in comp.inputs ensures !Overlaps(g, comp.lo, comp.hi) {
        var i :| 0 <= i < |outs| && outs[i] == g;
        assert !(c <= i < d);
        if c < d && Overlaps(g, comp.lo, comp.hi) {
          HullCovered(outs, lo, hi, c, d, i);
        }
      }
    }
  }

  /** No position between two picked ones is left out. */
  ghost predicate Adjacent(picked: set<nat>) {
    forall i, j, k | i in picked && k in picked && i < j < k :: j in picked
  }

  /** A file of level 0 is an input if and only if its position is picked. */
  lemma PickedInput(levels: Levels, o: nat, picked: set<nat>, lo: Key, hi: Key, c: nat, d: nat, i: nat)
    requires LevelsOk(levels) && o < |levels| && c <= d <= |levels[o]| && (o == 0 ==> c == d) && i < |levels[0]|
    ensures levels[0][i].number in FromZero(levels, o, picked, lo, hi, c, d).inputs <==> i in picked
  {
    var files, f := levels[0], levels[0][i];
    assert IsFile(levels, 0, f);
    if f.number in NumbersAt(files, picked) {
      var j :| j in picked && j < |files| && files[j].number == f.number;
      assert j == i;
    }
    if f.number in Numbers(levels[o], c, d) {
      ByNumber(levels, o, c, d, 0, f);
    }
  }

  lemma ZeroOrdered(levels: Levels, o: nat, picked: set<nat>, lo: Key, hi: Key, c: nat, d: nat)
    requires LevelsOk(levels) && o < |levels| && c <= d <= |levels[o]| && (o == 0 ==> c == d)
    requires if o == 0 then Adjacent(picked) else ZeroClosed(levels[0], picked)
    ensures ZeroClear(levels[0], FromZero(levels, o, picked, lo, hi, c, d))
    ensures ZeroTogether(levels[0], FromZero(levels, o, picked, lo, hi, c, d))
  {
    hide LevelsOk, FromZero;
    var comp := FromZero(levels, o, picked, lo, hi, c, d);
    forall i: nat | i < |levels[0]| ensures levels[0][i].number in comp.inputs <==> i in picked {
      PickedInput(levels, o, picked, lo, hi, c, d, i);
    }
    assert comp.output == o by {
      FromZeroLevels(levels, o, picked, lo, hi, c, d);
    }
  }

  lemma FromZeroLevels(levels: Levels, o: nat, picked: set<nat>, lo: Key, hi: Key, c: nat, d: nat)
    requires levels != [] && o < |levels| && c <= d <= |levels[o]|
    ensures FromZero(levels, o, picked, lo, hi, c, d).start == 0
    ensures FromZero(levels, o, picked, lo, hi, c, d).output == o
  {
  }

  lemma ZeroPlaced(levels: Levels, o: nat, picked: set<nat>, lo: Key, hi: Key, c: nat, d: nat)
    requires LevelsOk(levels) && o < |levels| && ZeroInputs(levels[0], picked) && ZeroSpan(levels[0], picked, lo, hi)
    requires c <= d <= |levels[o]| && (o == 0 ==> c == d)
    ensures Placed(levels, FromZero(levels, o, picked, lo, hi, c, d))
  {
    var comp := FromZero(levels, o, picked, lo, hi, c, d);
    NumbersPresent(levels, o, c, d);
    forall n | n in NumbersAt(levels[0], picked) ensures Present(levels, n) {
      var i :| i in picked && i < |levels[0]| && levels[0][i].number == n;
      assert IsFile(levels, 0, levels[0][i]);
    }
    hide Numbers, NumbersAt;
    forall l: nat, f | IsFile(levels, l, f) && f.number in comp.inputs
      ensures (l == 0 || l == o) && comp.lo <= f.smallest && f.largest <= comp.hi
    {
      if f.number in NumbersAt(levels[0], picked) {
        ByNumberAt(levels, picked, l, f);
      } else {
        ByNumber(levels, o, c, d, l, f);
        assert o > 0 ==> Sorted(levels[o]);
      }
    }
  }

  lemma ZeroInputsIdle(levels: Levels, running: Running, o: nat, picked: set<nat>, lo: Key, hi: Key, c: nat, d: nat)
    requires levels != [] && RunningOk(levels, running) && ZeroFree(running) && o < |levels| && c <= d <= |levels[o]|
    requires Idle(levels[o], running, c, d)
    ensures forall n | n in FromZero(levels, o, picked, lo, hi, c, d).inputs :: !Busy(running, n)
  {
    forall n | n in NumbersAt(levels[0], picked) ensures !Busy(running, n) {
      var i :| i in picked && i < |levels[0]| && levels[0][i].number == n;
      ZeroIdle(levels, running, levels[0][i]);
    }
  }
}
