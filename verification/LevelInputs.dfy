/** Completing the inputs of a level-style compaction from its start level and its output level. */
module LevelInputs {
  import opened Extrema
  import opened LevelFiles
  import opened LevelState

  /** Numbers of the files at positions `a` to `b`. */
  function Numbers(files: seq<File>, a: nat, b: nat): set<nat>
    requires a <= b <= |files|
  {
    set i | a <= i < b :: files[i].number
  }

  ghost predicate Idle(files: seq<File>, running: Running, a: nat, b: nat) {
    forall i | a <= i < b && i < |files| :: !Busy(running, files[i].number)
  }

  method AreFilesInCompaction(files: seq<File>, running: Running, a: nat, b: nat) returns (busy: bool)
    requires a <= b <= |files|
    ensures !busy <==> Idle(files, running, a, b)
  {
    for i := a to b
      invariant Idle(files, running, a, i)
    {
      if Busy(running, files[i].number) {
        return true;
      }
    }
    return false;
  }

  function TotalSize(files: seq<File>, a: nat, b: nat): nat
    requires a <= b <= |files|
    decreases b - a
  {
    if a == b then 0 else TotalSize(files, a, b - 1) + files[b - 1].size
  }

  // ---- The output level

  /** Positions `c` to `d` take in every file that meets the interval, and are cut clean around one that does. */
  ghost predicate Covers(files: seq<File>, lo: Key, hi: Key, c: nat, d: nat) {
    && c <= d <= |files|
    && (forall i: nat | i < |files| && Overlaps(files[i], lo, hi) :: c <= i < d)
    && (c < d ==> Clean(files, c, d) && exists i: nat :: c <= i < d && Overlaps(files[i], lo, hi))
  }

  /** Every clean range that takes in these files contains `c` to `d`. */
  ghost predicate LeastCover(files: seq<File>, lo: Key, hi: Key, c: nat, d: nat) {
    forall x: nat, y: nat | Clean(files, x, y)
                            && (forall i: nat | i < |files| && Overlaps(files[i], lo, hi) :: x <= i < y) ::
                     c == d || (x <= c && d <= y)
  }

  /** The least clean range with every file that meets the interval; empty if none does. */
  ghost predicate OutputFiles(files: seq<File>, lo: Key, hi: Key, c: nat, d: nat) {
    Covers(files, lo, hi, c, d) && LeastCover(files, lo, hi, c, d)
  }

  /** The files of the output level that the keys need are all idle. */
  ghost predicate OutputIdle(files: seq<File>, running: Running, lo: Key, hi: Key) {
    forall c: nat, d: nat | OutputFiles(files, lo, hi, c, d) :: Idle(files, running, c, d)
  }

  method OutputInputs(files: seq<File>, running: Running, lo: Key, hi: Key) returns (ok: bool, c: nat, d: nat)
    requires Sorted(files) && lo <= hi
    ensures ok <==> OutputIdle(files, running, lo, hi)
    ensures ok ==> OutputFiles(files, lo, hi, c, d) && Idle(files, running, c, d)
  {
    hide Idle, OutputFiles;
    c, d := GetOverlapping(files, lo, hi, -1);
    ghost var c0, d0 := c, d;
    var busy := AreFilesInCompaction(files, running, c, d);
    if busy {
      NotIdle(files, running, lo, hi, c, d);
      return false, c, d;
    }
    if c < d {
      c, d := ExpandToCleanCut(files, c, d);
      CoverFacts(files, lo, hi, c0, d0, c, d);
      busy := AreFilesInCompaction(files, running, c, d);
      if busy {
        return false, c, d;
      }
    } else {
      NoOutput(files, lo, hi, c, d);
    }
    OutputUnique(files, running, lo, hi, c, d);
    ok := true;
  }

  /** A busy file that meets the interval spoils every choice. */
  lemma NotIdle(files: seq<File>, running: Running, lo: Key, hi: Key, c: nat, d: nat)
    requires Sorted(files) && OverlapRange(files, lo, hi, c, d) && !Idle(files, running, c, d)
    ensures !OutputIdle(files, running, lo, hi)
  {
    var i :| c <= i < d && i < |files| && Busy(running, files[i].number);
    var x, y := CleanExists(files, c, d);
    CoverFacts(files, lo, hi, c, d, x, y);
    assert OutputFiles(files, lo, hi, x, y) && x <= i < y;
  }

  lemma NoOutput(files: seq<File>, lo: Key, hi: Key, c: nat, d: nat)
    requires OverlapRange(files, lo, hi, c, d) && c == d
    ensures OutputFiles(files, lo, hi, c, d)
  {
  }

  lemma OutputUnique(files: seq<File>, running: Running, lo: Key, hi: Key, c: nat, d: nat)
    requires OutputFiles(files, lo, hi, c, d) && Idle(files, running, c, d)
    ensures OutputIdle(files, running, lo, hi)
  {
    forall x: nat, y: nat | OutputFiles(files, lo, hi, x, y) ensures Idle(files, running, x, y) {
      SameOutput(files, lo, hi, c, d, x, y);
    }
  }

  lemma SameOutput(files: seq<File>, lo: Key, hi: Key, c: nat, d: nat, x: nat, y: nat)
    requires OutputFiles(files, lo, hi, c, d) && OutputFiles(files, lo, hi, x, y)
    ensures (c == d <==> x == y) && (c < d ==> x == c && y == d)
  {
    if c < d {
      var i: nat :| c <= i < d && Overlaps(files[i], lo, hi);
      assert x <= i < y;
    }
  }

  lemma CoverFacts(files: seq<File>, lo: Key, hi: Key, c0: nat, d0: nat, c: nat, d: nat)
    requires OverlapRange(files, lo, hi, c0, d0) && c0 < d0 && c <= c0 && d0 <= d && Clean(files, c, d)
    requires LeastClean(files, c0, d0, c, d)
    ensures OutputFiles(files, lo, hi, c, d)
  {
    assert Overlaps(files[c0], lo, hi) && Overlaps(files[d0 - 1], lo, hi);
    forall x: nat, y: nat | Clean(files, x, y)
                            && (forall i: nat | i < |files| && Overlaps(files[i], lo, hi) :: x <= i < y)
      ensures x <= c && d <= y
    {
      assert x <= c0 < y && x <= d0 - 1 < y;
    }
  }

  /** What meets the keys of the inputs of both levels together is already among them. */
  lemma HullCovered(files: seq<File>, lo: Key, hi: Key, c: nat, d: nat, i: nat)
    requires Sorted(files) && Covers(files, lo, hi, c, d) && lo <= hi && c < d && i < |files|
    requires Overlaps(files[i], Min(lo, files[c].smallest), Max(hi, files[d - 1].largest))
    ensures c <= i < d
  {
    var k: nat :| c <= k < d && Overlaps(files[k], lo, hi);
    if !(c <= i < d) {
      assert !Overlaps(files[i], lo, hi);
      CleanApart(files, c, d, i);
    }
  }

  /** A wider interval with no more files has the same files. */
  lemma SameCover(files: seq<File>, lo: Key, hi: Key, c: nat, d: nat, lo': Key, hi': Key, c': nat, d': nat)
    requires Covers(files, lo, hi, c, d) && LeastCover(files, lo, hi, c, d) && Covers(files, lo', hi', c', d')
    requires lo' <= lo && hi <= hi' && d' - c' == d - c && c < d
    ensures c' == c && d' == d
  {
    assert forall i: nat | i < |files| && Overlaps(files[i], lo, hi) :: Overlaps(files[i], lo', hi');
    assert Clean(files, c', d');
  }

  /** Within the keys of both levels together, a wider start range needs no more output files. */
  lemma WiderCover(files: seq<File>, lo: Key, hi: Key, c: nat, d: nat, lo': Key, hi': Key)
    requires Sorted(files) && Covers(files, lo, hi, c, d) && lo <= hi && c < d
    requires Min(lo, files[c].smallest) <= lo' <= lo && hi <= hi' <= Max(hi, files[d - 1].largest)
    ensures Covers(files, lo', hi', c, d)
  {
    forall i: nat | i < |files| && Overlaps(files[i], lo', hi') ensures c <= i < d {
      HullCovered(files, lo, hi, c, d, i);
    }
    var k: nat :| c <= k < d && Overlaps(files[k], lo, hi);
    assert Overlaps(files[k], lo', hi');
  }

  // ---- A start level above 0

  /** The inputs of a start level above 0: positions `a` to `b`, idle and cut clean. */
  ghost predicate StartOk(files: seq<File>, running: Running, a: nat, b: nat) {
    Clean(files, a, b) && Idle(files, running, a, b)
  }

  /** The keys of the inputs of both levels together. */
  function HullLo(files: seq<File>, outs: seq<File>, a: nat, c: nat): (lo: Key)
    requires a < |files| && c < |outs|
    ensures lo <= files[a].smallest && lo <= outs[c].smallest
    ensures lo == files[a].smallest || lo == outs[c].smallest
  {
    Min(files[a].smallest, outs[c].smallest)
  }

  function HullHi(files: seq<File>, outs: seq<File>, b: nat, d: nat): (hi: Key)
    requires 0 < b <= |files| && 0 < d <= |outs|
    ensures hi >= files[b - 1].largest && hi >= outs[d - 1].largest
    ensures hi == files[b - 1].largest || hi == outs[d - 1].largest
  {
    Max(files[b - 1].largest, outs[d - 1].largest)
  }

  /** More files for positions `a` to `b` of the start level: they are idle and fit the limit, and positions `c` to `d`
      of the output level still do. */
  ghost predicate Affordable(files: seq<File>, outs: seq<File>, running: Running, a: nat, b: nat, c: nat, d: nat,
      limit: nat, size: nat, x: nat, y: nat)
  {
    && x < y <= |files| && c <= d <= |outs| && y - x > b - a && Idle(files, running, x, y)
    && size + TotalSize(outs, c, d) < limit && Covers(outs, files[x].smallest, files[y - 1].largest, c, d)
  }

  /** Positions `x` to `y`: cut clean around the files that meet the keys of both levels. */
  ghost predicate GrowsByOverlap(files: seq<File>, outs: seq<File>, running: Running, a: nat, b: nat, c: nat, d: nat,
      limit: nat, x: nat, y: nat)
    requires a < b <= |files| && c < d <= |outs|
  {
    exists u: nat, v: nat | OverlapRange(files, HullLo(files, outs, a, c), HullHi(files, outs, b, d), u, v) ::
      CleanAround(files, u, v, x, y)
        && Affordable(files, outs, running, a, b, c, d, limit, TotalSize(files, u, v), x, y)
  }

  /** Positions `x` to `y`: the largest clean range within the keys of both levels. */
  ghost predicate GrowsWithin(files: seq<File>, outs: seq<File>, running: Running, a: nat, b: nat, c: nat, d: nat,
      limit: nat, x: nat, y: nat)
    requires a < b <= |files| && c < d <= |outs|
  {
    var lo, hi := HullLo(files, outs, a, c), HullHi(files, outs, b, d);
    && CleanWithin(files, lo, hi, x, y)
    && (forall x': nat, y': nat | CleanWithin(files, lo, hi, x', y') :: x <= x' && y' <= y)
    && Affordable(files, outs, running, a, b, c, d, limit, TotalSize(files, x, y), x, y)
  }

  /** The files of the start level that go: more than at first if the one way or else the other affords it. */
  ghost predicate Grown(files: seq<File>, outs: seq<File>, running: Running, a: nat, b: nat, c: nat, d: nat,
      limit: nat, x: nat, y: nat)
    requires a < b <= |files| && c <= d <= |outs|
  {
    if c < d && exists x': nat, y': nat :: GrowsByOverlap(files, outs, running, a, b, c, d, limit, x', y')
    then GrowsByOverlap(files, outs, running, a, b, c, d, limit, x, y)
    else if c < d && exists x': nat, y': nat :: GrowsWithin(files, outs, running, a, b, c, d, limit, x', y')
    then GrowsWithin(files, outs, running, a, b, c, d, limit, x, y)
    else x == a && y == b
  }

  /** Finds the inputs at the output level, then tries to take more files of the start level that need no more there. */
  method SetupOther(levels: Levels, running: Running, s: nat, o: nat, a: nat, b: nat, hint: int, limit: nat)
    returns (ok: bool, a': nat, b': nat, c: nat, d: nat)
    requires LevelsOk(levels) && 1 <= s < o < |levels| && StartOk(levels[s], running, a, b)
    requires hint == -1 || a <= hint < b
    ensures ok <==> OutputIdle(levels[o], running, levels[s][a].smallest, levels[s][b - 1].largest)
    ensures ok ==>
              && OutputFiles(levels[o], levels[s][a].smallest, levels[s][b - 1].largest, c, d) && c <= d <= |levels[o]|
              && Grown(levels[s], levels[o], running, a, b, c, d, limit, a', b')
    ensures ok ==> a' <= a && b <= b' && StartOk(levels[s], running, a', b')
    ensures ok ==>
              && Covers(levels[o], levels[s][a'].smallest, levels[s][b' - 1].largest, c, d)
              && Idle(levels[o], running, c, d)
  {
    hide Idle, OutputFiles, OutputIdle, GrowsByOverlap, GrowsWithin;
    var files, outs := levels[s], levels[o];
    assert Sorted(files) && Sorted(outs);
    SpanOk(files, a, b);
    var lo, hi := files[a].smallest, files[b - 1].largest;
    a', b' := a, b;
    ok, c, d := OutputInputs(outs, running, lo, hi);
    if ok {
      CoverBounds(outs, lo, hi, c, d);
    }
    if !ok || c == d {
      return;
    }
    var expanded, x, y := ExpandByOverlap(files, outs, running, a, b, c, d, hint, limit);
    if !expanded {
      expanded, x, y := ExpandWithin(files, outs, running, a, b, c, d, hint, limit);
    }
    if expanded {
      a', b' := x, y;
    }
  }

  lemma CoverBounds(files: seq<File>, lo: Key, hi: Key, c: nat, d: nat)
    requires OutputFiles(files, lo, hi, c, d)
    ensures c <= d <= |files| && Covers(files, lo, hi, c, d)
  {
  }

  /** All start files that meet the keys of both levels, if the output level then takes no more files. */
  method ExpandByOverlap(files: seq<File>, outs: seq<File>, running: Running, a: nat, b: nat, c: nat, d: nat, hint: int,
          limit: nat)
    returns (expanded: bool, x: nat, y: nat)
    requires Sorted(files) && Sorted(outs) && StartOk(files, running, a, b) && (hint == -1 || a <= hint < b)
    requires c < d <= |outs| && OutputFiles(outs, files[a].smallest, files[b - 1].largest, c, d)
    requires Idle(outs, running, c, d)
    ensures expanded ==> GrowsByOverlap(files, outs, running, a, b, c, d, limit, x, y)
    ensures expanded <==> exists x': nat, y': nat :: GrowsByOverlap(files, outs, running, a, b, c, d, limit, x', y')
    ensures expanded ==>
              && x <= a && b <= y && StartOk(files, running, x, y)
              && Covers(outs, files[x].smallest, files[y - 1].largest, c, d)
  {
    hide Covers, LeastCover, OutputFiles, OutputIdle, Idle, Affordable, GrowsByOverlap;
    SpanOk(files, a, b);
    var allLo, allHi := HullLo(files, outs, a, c), HullHi(files, outs, b, d);
    var u, v := GetOverlapping(files, allLo, allHi, hint);
    assert Overlaps(files[a], allLo, allHi) && Overlaps(files[b - 1], allLo, allHi);
    var size := TotalSize(files, u, v) + TotalSize(outs, c, d);
    x, y := ExpandToCleanCut(files, u, v);
    OnlyGrowth(files, outs, running, a, b, c, d, limit, u, v, x, y);
    SpanOk(files, x, y);
    var busy := AreFilesInCompaction(files, running, x, y);
    if busy || y - x <= b - a || size >= limit {
      NotAffordable(files, outs, running, a, b, c, d, limit, TotalSize(files, u, v), x, y);
      return false, x, y;
    }
    var c', d';
    expanded, c', d' := OutputInputs(outs, running, files[x].smallest, files[y - 1].largest);
    StillCovers(outs, running, files[a].smallest, files[b - 1].largest, c, d, files[x].smallest, files[y - 1].largest,
                expanded, c', d');
    expanded := expanded && d' + c == d + c';
    NowAffordable(files, outs, running, a, b, c, d, limit, TotalSize(files, u, v), x, y);
  }

  lemma NotAffordable(files: seq<File>, outs: seq<File>, running: Running, a: nat, b: nat, c: nat, d: nat, limit: nat,
          size: nat, x: nat, y: nat)
    requires x < y <= |files| && c <= d <= |outs|
    requires !Idle(files, running, x, y) || y - x <= b - a || size + TotalSize(outs, c, d) >= limit
    ensures !Affordable(files, outs, running, a, b, c, d, limit, size, x, y)
  {
  }

  lemma NowAffordable(files: seq<File>, outs: seq<File>, running: Running, a: nat, b: nat, c: nat, d: nat, limit: nat,
          size: nat, x: nat, y: nat)
    requires x < y <= |files| && c <= d <= |outs|
    requires Idle(files, running, x, y) && y - x > b - a && size + TotalSize(outs, c, d) < limit
    ensures Affordable(files, outs, running, a, b, c, d, limit, size, x, y) <==>
            Covers(outs, files[x].smallest, files[y - 1].largest, c, d)
  {
  }

  /** There is only one range to grow to. */
  lemma OnlyGrowth(files: seq<File>, outs: seq<File>, running: Running, a: nat, b: nat, c: nat, d: nat, limit: nat,
          u: nat, v: nat, x: nat, y: nat)
    requires a < b <= |files| && c < d <= |outs| && u <= a && b <= v && CleanAround(files, u, v, x, y)
    requires OverlapRange(files, HullLo(files, outs, a, c), HullHi(files, outs, b, d), u, v)
    ensures forall x': nat, y': nat :: GrowsByOverlap(files, outs, running, a, b, c, d, limit, x', y') <==>
              x' == x && y' == y && Affordable(files, outs, running, a, b, c, d, limit, TotalSize(files, u, v), x, y)
  {
    hide Affordable;
    var lo, hi := HullLo(files, outs, a, c), HullHi(files, outs, b, d);
    forall u': nat, v': nat | OverlapRange(files, lo, hi, u', v') ensures u' == u && v' == v {
      SameOverlap(files, lo, hi, u, v, u', v');
    }
  }

  lemma SameOverlap(files: seq<File>, lo: Key, hi: Key, u: nat, v: nat, u': nat, v': nat)
    requires OverlapRange(files, lo, hi, u, v) && OverlapRange(files, lo, hi, u', v') && u < v
    ensures u' == u && v' == v
  {
    assert Overlaps(files[u], lo, hi) && Overlaps(files[v - 1], lo, hi);
    assert Overlaps(files[u'], lo, hi) && Overlaps(files[v' - 1], lo, hi);
  }

  /** A wider interval needs the same output files exactly if it needs no more of them. */
  lemma StillCovers(outs: seq<File>, running: Running, lo: Key, hi: Key, c: nat, d: nat, lo': Key, hi': Key, ok: bool,
          c': nat, d': nat)
    requires OutputFiles(outs, lo, hi, c, d) && c < d && Idle(outs, running, c, d) && lo' <= lo && hi <= hi'
    requires ok <==> OutputIdle(outs, running, lo', hi')
    requires ok ==> OutputFiles(outs, lo', hi', c', d')
    ensures ok && d' + c == d + c' <==> Covers(outs, lo', hi', c, d)
  {
    hide Idle;
    if ok && d' + c == d + c' {
      SameCover(outs, lo, hi, c, d, lo', hi', c', d');
    }
    if Covers(outs, lo', hi', c, d) {
      assert forall i: nat | i < |outs| && Overlaps(outs[i], lo, hi) :: Overlaps(outs[i], lo', hi');
      assert LeastCover(outs, lo', hi', c, d);
      OutputUnique(outs, running, lo', hi', c, d);
      if ok {
        SameOutput(outs, lo', hi', c, d, c', d');
      }
    }
  }

  /** The largest clean range of start files within the keys of both levels. */
  method ExpandWithin(files: seq<File>, outs: seq<File>, running: Running, a: nat, b: nat, c: nat, d: nat, hint: int,
          limit: nat)
    returns (expanded: bool, x: nat, y: nat)
    requires Sorted(files) && Sorted(outs) && StartOk(files, running, a, b) && (hint == -1 || a <= hint < b)
    requires c < d <= |outs|
    requires Covers(outs, files[a].smallest, files[b - 1].largest, c, d)
    ensures expanded ==> GrowsWithin(files, outs, running, a, b, c, d, limit, x, y)
    ensures expanded <==> exists x': nat, y': nat :: GrowsWithin(files, outs, running, a, b, c, d, limit, x', y')
    ensures expanded ==>
              && x <= a && b <= y && StartOk(files, running, x, y)
              && Covers(outs, files[x].smallest, files[y - 1].largest, c, d)
  {
    hide Covers, Idle, Affordable, GrowsWithin;
    var lo, hi := files[a].smallest, files[b - 1].largest;
    SpanOk(files, a, b);
    var allLo, allHi := HullLo(files, outs, a, c), HullHi(files, outs, b, d);
    x, y := GetCleanWithin(files, allLo, allHi, hint);
    assert CleanWithin(files, allLo, allHi, a, b);
    var busy := AreFilesInCompaction(files, running, x, y);
    expanded := y - x > b - a && TotalSize(files, x, y) + TotalSize(outs, c, d) < limit && !busy;
    WiderCover(outs, lo, hi, c, d, files[x].smallest, files[y - 1].largest);
    if expanded {
      NowAffordable(files, outs, running, a, b, c, d, limit, TotalSize(files, x, y), x, y);
    } else {
      NotAffordable(files, outs, running, a, b, c, d, limit, TotalSize(files, x, y), x, y);
    }
    OnlyWithin(files, outs, running, a, b, c, d, limit, x, y);
  }

  lemma OnlyWithin(files: seq<File>, outs: seq<File>, running: Running, a: nat, b: nat, c: nat, d: nat, limit: nat,
          x: nat, y: nat)
    requires a < b <= |files| && c < d <= |outs|
    requires CleanWithin(files, HullLo(files, outs, a, c), HullHi(files, outs, b, d), x, y)
    requires var lo, hi := HullLo(files, outs, a, c), HullHi(files, outs, b, d);
             forall x': nat, y': nat | CleanWithin(files, lo, hi, x', y') :: x <= x' && y' <= y
    ensures forall x': nat, y': nat :: GrowsWithin(files, outs, running, a, b, c, d, limit, x', y') <==>
              x' == x && y' == y && Affordable(files, outs, running, a, b, c, d, limit, TotalSize(files, x, y), x, y)
  {
    hide Affordable;
  }
}
