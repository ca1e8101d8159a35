/** Universal compaction: picking blocks of consecutive sorted runs. */
module UniversalRuns {
  import opened Extrema
  import opened Options

  /** A sorted run: a file of level 0, or all files of a deeper level. It holds the flushes `oldest` to `newest`;
      `owner` is the compaction that is rewriting it. */
  datatype Run = Run(level: nat, size: nat, comp: nat, owner: Option<nat>, oldest: nat, newest: nat)
  {
    predicate Busy() {
      owner.Some?
    }
  }

  // ---- Sizes

  function TotalComp(runs: seq<Run>, a: nat, b: nat): nat
    requires a <= b <= |runs|
    decreases b - a
  {
    if a == b then 0 else TotalComp(runs, a, b - 1) + runs[b - 1].comp
  }

  predicate AllIdle(runs: seq<Run>, a: nat, b: nat) {
    forall i | a <= i < b && i < |runs| :: !runs[i].Busy()
  }

  predicate AllBusy(runs: seq<Run>, a: nat, b: nat) {
    forall i | a <= i < b && i < |runs| :: runs[i].Busy()
  }

  // ---- Size amplification

  /** The runs from `a` on, the last one not examined, weigh too much compared with the last run. */
  predicate Amplified(runs: seq<Run>, a: nat, percent: nat)
    requires a < |runs|
  {
    TotalComp(runs, a, |runs| - 1) * 100 >= percent * runs[|runs| - 1].size
  }

  /** `a` is the first idle run, all others before the last are idle, and they amplify the size too much. */
  predicate AmpCandidate(runs: seq<Run>, a: nat, percent: nat) {
    a + 1 < |runs| && AllBusy(runs, 0, a) && AllIdle(runs, a, |runs| - 1) && Amplified(runs, a, percent)
  }

  method PickToReduceSizeAmp(runs: seq<Run>, percent: nat) returns (r: Option<nat>)
    requires runs != []
    ensures r.Some? ==> AmpCandidate(runs, r.value, percent)
    ensures r.None? ==> forall a: nat :: !AmpCandidate(runs, a, percent)
  {
    var n := |runs| - 1;
    var start := 0;
    while start < n && runs[start].Busy()
      invariant start <= n && AllBusy(runs, 0, start)
    {
      start := start + 1;
    }
    if start == n {
      return None;
    }
    var candidateSize, loop := 0, start;
    while loop < n
      invariant start <= loop <= n && AllIdle(runs, start, loop) && candidateSize == TotalComp(runs, start, loop)
    {
      if runs[loop].Busy() {
        OnlyStart(runs, start, percent);
        return None;
      }
      candidateSize := candidateSize + runs[loop].comp;
      loop := loop + 1;
    }
    OnlyStart(runs, start, percent);
    if candidateSize * 100 < percent * runs[n].size {
      return None;
    }
    r := Some(start);
  }

  /** Only the first idle run can be a candidate. */
  lemma OnlyStart(runs: seq<Run>, start: nat, percent: nat)
    requires start + 1 < |runs| && AllBusy(runs, 0, start) && !runs[start].Busy()
    ensures forall a: nat | AmpCandidate(runs, a, percent) :: a == start
  {
    forall a: nat | AmpCandidate(runs, a, percent) ensures a == start {
      var first := runs[a];
    }
  }

  // ---- Size ratio

  datatype StopStyle = SimilarSize | TotalSize

  datatype Rule = Rule(ratio: nat, style: StopStyle)

  /** The first size with `ratio` percent added is not below the second. */
  predicate Reaches(ratio: nat, size: nat, other: nat) {
    100 * other <= (100 + ratio) * size
  }

  /** A size with `ratio` percent added. */
  function Scaled(size: nat, ratio: nat): real {
    size as real * (100.0 + ratio as real) / 100.0
  }

  lemma ReachesIs(ratio: nat, size: nat, other: nat)
    ensures Reaches(ratio, size, other) <==> Scaled(size, ratio) >= other as real
  {
    var x := size as real * (100.0 + ratio as real);
    assert x == ((100 + ratio) * size) as real;
  }

  /** Run `i` may join the runs from `a` on: with the total size rule it is not larger than they are together, with the
      similar size rule neither larger nor smaller than the one before it, up to the ratio. */
  predicate Joins(runs: seq<Run>, a: nat, i: nat, rule: Rule)
    requires a < i < |runs|
  {
    match rule.style
    case TotalSize => Reaches(rule.ratio, TotalComp(runs, a, i), runs[i].size)
    case SimilarSize =>
      Reaches(rule.ratio, runs[i - 1].comp, runs[i].size) && Reaches(rule.ratio, runs[i].size, runs[i - 1].comp)
  }

  /** The candidate block that starts at run `a` has `w` runs: idle ones that join, until one is missing, busy, one too
      many or of the wrong size. */
  ghost predicate Width(runs: seq<Run>, a: nat, rule: Rule, most: nat, w: nat)
    requires a < |runs|
  {
    if runs[a].Busy() then w == 0
    else
      && 1 <= w && a + w <= |runs| && (w == 1 || w <= most)
      && (forall i | a < i < a + w :: !runs[i].Busy() && Joins(runs, a, i, rule))
      && (a + w == |runs| || w >= most || runs[a + w].Busy() || !Joins(runs, a, a + w, rule))
  }

  /** There is exactly one such width. */
  lemma WidthUnique(runs: seq<Run>, a: nat, rule: Rule, most: nat, w: nat, w': nat)
    requires a < |runs| && Width(runs, a, rule, most, w) && Width(runs, a, rule, most, w')
    ensures w' == w
  {
    hide Joins;
  }

  lemma WidthIdle(runs: seq<Run>, a: nat, rule: Rule, most: nat, w: nat)
    requires a < |runs| && Width(runs, a, rule, most, w)
    ensures a + w <= |runs| && AllIdle(runs, a, a + w)
  {
    hide Joins;
  }

  /** The candidate loop: one run after the other joins. */
  method CountCandidates(runs: seq<Run>, a: nat, rule: Rule, most: nat) returns (count: nat)
    requires a < |runs| && !runs[a].Busy()
    ensures Width(runs, a, rule, most, count)
  {
    hide Reaches, Scaled;
    var candidateSize: nat := runs[a].comp;
    count := 1;
    var i := a + 1;
    while count < most && i < |runs|
      invariant i == a + count <= |runs| && (count == 1 || count <= most)
      invariant candidateSize == if rule.style.SimilarSize? then runs[i - 1].comp else TotalComp(runs, a, i)
      invariant forall k | a < k < i :: !runs[k].Busy() && Joins(runs, a, k, rule)
      decreases |runs| - i
    {
      if runs[i].Busy() {
        break;
      }
      ReachesIs(rule.ratio, candidateSize, runs[i].size);
      if Scaled(candidateSize, rule.ratio) < runs[i].size as real {
        break;
      }
      if rule.style.SimilarSize? {
        ReachesIs(rule.ratio, runs[i].size, candidateSize);
        if Scaled(runs[i].size, rule.ratio) < candidateSize as real {
          break;
        }
        candidateSize := runs[i].comp;
      } else {
        candidateSize := candidateSize + runs[i].comp;
      }
      count := count + 1;
      i := i + 1;
    }
  }

  /** The block at `a` has too few runs. */
  ghost predicate Narrow(runs: seq<Run>, a: nat, rule: Rule, most: nat, least: nat)
    requires a < |runs|
  {
    forall w: nat | Width(runs, a, rule, most, w) :: w < least
  }

  /** No block is wide enough, or `r` is the first that is. */
  ghost predicate FirstWide(runs: seq<Run>, rule: Rule, most: nat, least: nat, r: Option<(nat, nat)>) {
    match r
    case None => forall a | 0 <= a < |runs| :: Narrow(runs, a, rule, most, least)
    case Some((a, b)) =>
      && a < b <= |runs| && Width(runs, a, rule, most, b - a) && b - a >= least
      && forall c | 0 <= c < a :: Narrow(runs, c, rule, most, least)
  }

  lemma StillNarrow(runs: seq<Run>, a: nat, rule: Rule, most: nat, least: nat, w: nat)
    requires a < |runs| && Width(runs, a, rule, most, w) && w < least
    ensures Narrow(runs, a, rule, most, least)
  {
    forall w': nat | Width(runs, a, rule, most, w') ensures w' < least {
      WidthUnique(runs, a, rule, most, w, w');
    }
  }

  /** The first block of idle runs that is wide enough: between `minWidth`, or two, and the smaller of `maxWidth` and
      `maxFiles`. */
  method PickToReduceSortedRuns(runs: seq<Run>, rule: Rule, maxFiles: nat, minWidth: nat, maxWidth: nat)
    returns (r: Option<(nat, nat)>)
    ensures FirstWide(runs, rule, Min(maxWidth, maxFiles), Max(minWidth, 2), r)
    ensures r.Some? ==> AllIdle(runs, r.value.0, r.value.1)
  {
    hide Width, Narrow;
    var most, least := Min(maxWidth, maxFiles), Max(minWidth, 2);
    var loop := 0;
    while loop < |runs|
      invariant loop <= |runs| && forall c | 0 <= c < loop :: Narrow(runs, c, rule, most, least)
    {
      while loop < |runs| && runs[loop].Busy()
        invariant loop <= |runs| && forall c | 0 <= c < loop :: Narrow(runs, c, rule, most, least)
      {
        BusyNarrow(runs, loop, rule, most, least);
        loop := loop + 1;
      }
      if loop == |runs| {
        break;
      }
      var count := CountCandidates(runs, loop, rule, most);
      if count >= least {
        WidthIdle(runs, loop, rule, most, count);
        return Some((loop, loop + count));
      }
      StillNarrow(runs, loop, rule, most, least, count);
      loop := loop + 1;
    }
    r := None;
  }

  lemma SomeWide(runs: seq<Run>, rule: Rule, most: nat, least: nat, a: nat, b: nat)
    requires FirstWide(runs, rule, most, least, Some((a, b)))
    ensures !FirstWide(runs, rule, most, least, None)
  {
    hide Width;
    assert !Narrow(runs, a, rule, most, least);
  }

  lemma BusyNarrow(runs: seq<Run>, a: nat, rule: Rule, most: nat, least: nat)
    requires a < |runs| && runs[a].Busy() && least > 0
    ensures Narrow(runs, a, rule, most, least)
  {
  }

  // ---- The block and its output level

  /** Where the merge of a block that ends before run `b` goes: just above the next run. */
  function OutputLevel(runs: seq<Run>, b: nat, numLevels: nat): nat
    requires b <= |runs| && numLevels > 0
  {
    if b == |runs| then numLevels - 1
    else if runs[b].level == 0 then 0
    else runs[b].level - 1
  }

  /** That is the deepest level that leaves room for the next run. */
  lemma OutputIsDeepest(runs: seq<Run>, b: nat, numLevels: nat, out: nat)
    requires Ordered(runs, numLevels) && b <= |runs| && out < numLevels && (b < |runs| ==> Below(out, runs[b].level))
    ensures var deepest := OutputLevel(runs, b, numLevels);
            out <= deepest < numLevels && (b < |runs| ==> Below(deepest, runs[b].level))
  {
  }

  /** Newer runs come first, at lower levels; only level 0 has several runs. */
  ghost predicate Ordered(runs: seq<Run>, numLevels: nat) {
    && (forall i | 0 <= i < |runs| :: runs[i].level < numLevels && runs[i].oldest <= runs[i].newest)
    && (forall i, j | 0 <= i < j < |runs| :: Below(runs[i].level, runs[j].level) && runs[j].newest < runs[i].oldest)
  }

  /** Level `b` may follow level `a`. */
  predicate Below(a: nat, b: nat) {
    a < b || a == b == 0
  }

  /** A compaction has a block of consecutive runs, at least two. */
  ghost predicate Block(runs: seq<Run>, c: nat, a: nat, b: nat) {
    && a + 2 <= b <= |runs|
    && forall i | 0 <= i < |runs| :: runs[i].owner == Some(c) <==> a <= i < b
  }

  ghost predicate HasBlock(runs: seq<Run>, c: nat) {
    exists a: nat, b: nat :: Block(runs, c, a, b)
  }

  /** The output of a compaction fits between the runs around its block. */
  ghost predicate OutputFits(runs: seq<Run>, c: nat, out: nat, numLevels: nat) {
    && out < numLevels
    && (forall i | 0 <= i < |runs| && runs[i].owner == Some(c) :: runs[i].level <= out)
    && (forall i, j | 0 <= i < j < |runs| && runs[i].owner == Some(c) && runs[j].owner != Some(c) ::
          Below(out, runs[j].level))
  }

  ghost predicate RunsOk(runs: seq<Run>, outs: map<nat, nat>, numLevels: nat) {
    && Ordered(runs, numLevels)
    && (forall i | 0 <= i < |runs| && runs[i].owner.Some? :: runs[i].owner.value in outs)
    && (forall c | c in outs :: HasBlock(runs, c) && OutputFits(runs, c, outs[c], numLevels))
  }

  /** The last run is busy only if the one before it is: a block has at least two runs. */
  lemma LastNotAlone(runs: seq<Run>, outs: map<nat, nat>, numLevels: nat)
    requires RunsOk(runs, outs, numLevels) && |runs| >= 2 && runs[|runs| - 1].Busy()
    ensures runs[|runs| - 2].owner == runs[|runs| - 1].owner
  {
    var c := runs[|runs| - 1].owner.value;
    assert HasBlock(runs, c);
    var a: nat, b: nat :| Block(runs, c, a, b);
    assert a <= |runs| - 1 < b;
  }

  /** So the size amplification pick, which never examines the last run, never takes a busy one. */
  lemma SizeAmpIsIdle(runs: seq<Run>, outs: map<nat, nat>, numLevels: nat, a: nat, percent: nat)
    requires RunsOk(runs, outs, numLevels) && AmpCandidate(runs, a, percent)
    ensures AllIdle(runs, a, |runs|) && a + 2 <= |runs|
  {
    assert !runs[|runs| - 2].Busy();
    if runs[|runs| - 1].Busy() {
      LastNotAlone(runs, outs, numLevels);
    }
  }

  // ---- Steps

  /** A block of idle runs is given to a compaction. */
  function Owned(runs: seq<Run>, a: nat, b: nat, c: nat): (r: seq<Run>)
    requires a <= b <= |runs|
    ensures |r| == |runs|
    ensures forall i | 0 <= i < |runs| :: r[i] == if a <= i < b then runs[i].(owner := Some(c)) else runs[i]
  {
    seq(|runs|, i requires 0 <= i < |runs| => if a <= i < b then runs[i].(owner := Some(c)) else runs[i])
  }

  lemma OwnedOrdered(runs: seq<Run>, numLevels: nat, a: nat, b: nat, c: nat)
    requires Ordered(runs, numLevels) && a <= b <= |runs|
    ensures Ordered(Owned(runs, a, b, c), numLevels)
  {
  }

  /** The picked block gets an output level between its neighbours. */
  lemma PickFits(runs: seq<Run>, numLevels: nat, a: nat, b: nat, c: nat)
    requires Ordered(runs, numLevels) && a + 2 <= b <= |runs| && numLevels > 0
    requires forall i | 0 <= i < |runs| :: runs[i].owner != Some(c)
    ensures Block(Owned(runs, a, b, c), c, a, b)
    ensures OutputFits(Owned(runs, a, b, c), c, OutputLevel(runs, b, numLevels), numLevels)
  {
    var out := OutputLevel(runs, b, numLevels);
    var runs' := Owned(runs, a, b, c);
    if b < |runs| {
      forall i | a <= i < b ensures runs[i].level <= out {
        assert Below(runs[i].level, runs[b].level);
      }
      forall j | b <= j < |runs| ensures Below(out, runs[j].level) {
        assert j == b || Below(runs[b].level, runs[j].level);
      }
    }
  }

  /** Other compactions are not affected. */
  lemma PickKeeps(runs: seq<Run>, numLevels: nat, a: nat, b: nat, c: nat, d: nat, out: nat)
    requires a <= b <= |runs| && AllIdle(runs, a, b) && d != c && HasBlock(runs, d)
    requires OutputFits(runs, d, out, numLevels)
    ensures HasBlock(Owned(runs, a, b, c), d) && OutputFits(Owned(runs, a, b, c), d, out, numLevels)
  {
    var x: nat, y: nat :| Block(runs, d, x, y);
    var runs' := Owned(runs, a, b, c);
    assert forall i | 0 <= i < |runs| :: runs'[i].owner == Some(d) <==> runs[i].owner == Some(d);
    assert Block(runs', d, x, y);
  }

  lemma PickOk(runs: seq<Run>, outs: map<nat, nat>, numLevels: nat, a: nat, b: nat, c: nat)
    requires RunsOk(runs, outs, numLevels) && a + 2 <= b <= |runs| && numLevels > 0 && AllIdle(runs, a, b) && c !in outs
    ensures RunsOk(Owned(runs, a, b, c), outs[c := OutputLevel(runs, b, numLevels)], numLevels)
  {
    hide HasBlock, OutputFits, OutputLevel;
    var runs', outs' := Owned(runs, a, b, c), outs[c := OutputLevel(runs, b, numLevels)];
    OwnedOrdered(runs, numLevels, a, b, c);
    hide Ordered;
    PickFits(runs, numLevels, a, b, c);
    BlockExists(runs', c, a, b);
    forall d | d in outs' ensures HasBlock(runs', d) && OutputFits(runs', d, outs'[d], numLevels) {
      if d != c {
        PickKeeps(runs, numLevels, a, b, c, d, outs[d]);
      }
    }
  }

  lemma BlockExists(runs: seq<Run>, c: nat, a: nat, b: nat)
    requires Block(runs, c, a, b)
    ensures HasBlock(runs, c)
  {
  }

  // ---- Flush

  lemma FlushOk(runs: seq<Run>, outs: map<nat, nat>, numLevels: nat, r: Run)
    requires RunsOk(runs, outs, numLevels) && numLevels > 0 && r.level == 0 && !r.Busy() && r.oldest <= r.newest
    requires forall i | 0 <= i < |runs| :: runs[i].newest < r.oldest
    ensures RunsOk([r] + runs, outs, numLevels)
  {
    var runs' := [r] + runs;
    assert forall i | 0 < i < |runs'| :: runs'[i] == runs[i - 1];
    assert Ordered(runs', numLevels);
    hide Ordered;
    forall c | c in outs ensures HasBlock(runs', c) && OutputFits(runs', c, outs[c], numLevels) {
      FlushKeeps(runs, numLevels, r, c, outs[c]);
    }
  }

  lemma FlushKeeps(runs: seq<Run>, numLevels: nat, r: Run, c: nat, out: nat)
    requires HasBlock(runs, c) && OutputFits(runs, c, out, numLevels) && !r.Busy()
    ensures HasBlock([r] + runs, c) && OutputFits([r] + runs, c, out, numLevels)
  {
    var runs' := [r] + runs;
    assert forall i | 0 < i < |runs'| :: runs'[i] == runs[i - 1];
    var a: nat, b: nat :| Block(runs, c, a, b);
    assert Block(runs', c, a + 1, b + 1);
  }

  // ---- Completion

  /** The runs once block `a` to `b` is replaced. */
  function Replaced(runs: seq<Run>, a: nat, b: nat, merged: seq<Run>): seq<Run>
    requires a <= b <= |runs|
  {
    runs[..a] + merged + runs[b..]
  }

  /** What a compaction leaves in the place of its block: nothing, or one run at its output level that holds its
      flushes. */
  ghost predicate Merged(runs: seq<Run>, a: nat, b: nat, out: nat, merged: seq<Run>)
    requires a < b <= |runs|
  {
    || merged == []
    || (|merged| == 1 && merged[0].level == out && !merged[0].Busy()
        && runs[b - 1].oldest <= merged[0].oldest <= merged[0].newest <= runs[a].newest)
  }

  /** The merged run keeps the runs in time and level order. */
  lemma FinishOrdered(runs: seq<Run>, numLevels: nat, c: nat, out: nat, a: nat, b: nat, merged: seq<Run>)
    requires Ordered(runs, numLevels) && Block(runs, c, a, b) && OutputFits(runs, c, out, numLevels)
    requires Merged(runs, a, b, out, merged)
    ensures Ordered(Replaced(runs, a, b, merged), numLevels)
  {
    var runs' := Replaced(runs, a, b, merged);
    var w := |merged|;
    assert runs[a].owner == Some(c) && runs[b - 1].owner == Some(c);
    forall i, j | 0 <= i < j < |runs'|
      ensures Below(runs'[i].level, runs'[j].level) && runs'[j].newest < runs'[i].oldest
    {
      var i', j' := if i < a then i else i - w + b - a, if j < a then j else j - w + b - a;
      if i < a && a <= j < a + w {
        assert Below(runs[i].level, runs[a].level) && Below(runs[a].level, runs[b - 1].level);
      } else if a <= i < a + w && j >= a + w {
        assert runs[j'].owner != Some(c);
        assert Below(out, runs[j'].level);
      } else {
        assert runs'[i] == runs[i'] && runs'[j] == runs[j'];
      }
    }
  }

  /** Another compaction keeps its block and its place. */
  lemma FinishKeeps(runs: seq<Run>, numLevels: nat, c: nat, out: nat, a: nat, b: nat, merged: seq<Run>, d: nat,
          outD: nat)
    requires Block(runs, c, a, b) && OutputFits(runs, c, out, numLevels) && Merged(runs, a, b, out, merged)
    requires d != c && HasBlock(runs, d) && OutputFits(runs, d, outD, numLevels)
    ensures HasBlock(Replaced(runs, a, b, merged), d) && OutputFits(Replaced(runs, a, b, merged), d, outD, numLevels)
  {
    var x: nat, y: nat :| Block(runs, d, x, y);
    assert y <= a || b <= x by {
      assert runs[a].owner == Some(c) && runs[b - 1].owner == Some(c);
      assert runs[x].owner == Some(d) && runs[y - 1].owner == Some(d);
    }
    FinishBlock(runs, a, b, merged, d, x, y);
    if y <= a {
      assert runs[x].owner == Some(d) && runs[a].owner == Some(c);
      assert Below(outD, runs[a].level) && runs[a].level <= out;
    }
    FinishFits(runs, numLevels, out, a, b, merged, d, outD, x, y);
  }

  lemma FinishBlock(runs: seq<Run>, a: nat, b: nat, merged: seq<Run>, d: nat, x: nat, y: nat)
    requires a < b <= |runs| && Block(runs, d, x, y) && (y <= a || b <= x) && forall m | m in merged :: !m.Busy()
    ensures HasBlock(Replaced(runs, a, b, merged), d)
  {
    var runs', w := Replaced(runs, a, b, merged), |merged|;
    forall i | 0 <= i < |runs'| && !(a <= i < a + w) ensures runs'[i] == runs[if i < a then i else i - w + b - a] {
    }
    var x', y' := if y <= a then x else x - (b - a) + w, if y <= a then y else y - (b - a) + w;
    assert Block(runs', d, x', y') by {
      forall i | 0 <= i < |runs'| ensures runs'[i].owner == Some(d) <==> x' <= i < y' {
        if a <= i < a + w {
          assert runs'[i] == merged[i - a] && merged[i - a] in merged;
        }
      }
    }
  }

  lemma FinishFits(runs: seq<Run>, numLevels: nat, out: nat, a: nat, b: nat, merged: seq<Run>, d: nat, outD: nat,
          x: nat, y: nat)
    requires a < b <= |runs| && Block(runs, d, x, y) && (y <= a || b <= x) && OutputFits(runs, d, outD, numLevels)
    requires |merged| <= 1 && (merged != [] ==> merged[0].level == out && !merged[0].Busy())
    requires y <= a ==> Below(outD, out)
    ensures OutputFits(Replaced(runs, a, b, merged), d, outD, numLevels)
  {
    var runs', w := Replaced(runs, a, b, merged), |merged|;
    forall i | 0 <= i < |runs'| && !(a <= i < a + w) ensures runs'[i] == runs[if i < a then i else i - w + b - a] {
    }
  }

  lemma FinishOk(runs: seq<Run>, outs: map<nat, nat>, numLevels: nat, c: nat, a: nat, b: nat, merged: seq<Run>)
    requires RunsOk(runs, outs, numLevels) && c in outs && Block(runs, c, a, b) && Merged(runs, a, b, outs[c], merged)
    ensures RunsOk(Replaced(runs, a, b, merged), outs - {c}, numLevels)
  {
    hide HasBlock, OutputFits, Ordered;
    var runs' := Replaced(runs, a, b, merged);
    FinishOrdered(runs, numLevels, c, outs[c], a, b, merged);
    forall d | d in outs - {c} ensures HasBlock(runs', d) && OutputFits(runs', d, outs[d], numLevels) {
      FinishKeeps(runs, numLevels, c, outs[c], a, b, merged, d, outs[d]);
    }
    forall i | 0 <= i < |runs'| && runs'[i].owner.Some? ensures runs'[i].owner.value in outs - {c} {
      var w := |merged|;
      assert !(a <= i < a + w);
      var k := if i < a then i else i - w + b - a;
      assert runs'[i] == runs[k] && runs[k].owner != Some(c);
    }
  }

  // ---- The choice

  datatype Settings = Settings(trigger: nat, sizeAmpPercent: nat, sizeRatio: nat, minMergeWidth: nat,
          maxMergeWidth: nat, style: StopStyle)

  const UINT_MAX: nat := 0xFFFF_FFFF

  /** The three reasons to compact, in their order: space amplification, runs of similar size, too many runs. */
  ghost predicate Choice(runs: seq<Run>, o: Settings, r: Option<(nat, nat)>) {
    if runs == [] || |runs| < o.trigger then r.None?
    else if exists a: nat :: AmpCandidate(runs, a, o.sizeAmpPercent) then
      r.Some? && AmpCandidate(runs, r.value.0, o.sizeAmpPercent) && r.value.1 == |runs|
    else
      var least, bySize, byNumber := Max(o.minMergeWidth, 2), Rule(o.sizeRatio, o.style), Rule(UINT_MAX, o.style);
      if !FirstWide(runs, bySize, Min(o.maxMergeWidth, UINT_MAX), least, None) then
        r.Some? && FirstWide(runs, bySize, Min(o.maxMergeWidth, UINT_MAX), least, r)
      else if IdleCount(runs) > o.trigger then
        FirstWide(runs, byNumber, Min(o.maxMergeWidth, IdleCount(runs) - o.trigger + 1), least, r)
      else r.None?
  }

  function IdleCount(runs: seq<Run>): nat {
    |set i | 0 <= i < |runs| && !runs[i].Busy()|
  }

  /** Tries size amplification, then size ratios, then the number of runs. */
  method ChooseBlock(runs: seq<Run>, o: Settings, ghost outs: map<nat, nat>, ghost numLevels: nat)
    returns (r: Option<(nat, nat)>)
    requires RunsOk(runs, outs, numLevels)
    ensures Choice(runs, o, r)
    ensures r.Some? ==> var (a, b) := r.value; a + 2 <= b <= |runs| && AllIdle(runs, a, b)
  {
    hide FirstWide, RunsOk, AmpCandidate;
    r := None;
    if runs == [] || |runs| < o.trigger {
      return;
    }
    var amp := PickToReduceSizeAmp(runs, o.sizeAmpPercent);
    if amp.Some? {
      SizeAmpIsIdle(runs, outs, numLevels, amp.value, o.sizeAmpPercent);
      return Some((amp.value, |runs|));
    }
    r := PickToReduceSortedRuns(runs, Rule(o.sizeRatio, o.style), UINT_MAX, o.minMergeWidth, o.maxMergeWidth);
    if r.Some? {
      WideBlock(runs, Rule(o.sizeRatio, o.style), Min(o.maxMergeWidth, UINT_MAX), Max(o.minMergeWidth, 2), r.value.0,
                r.value.1);
      return;
    }
    var idle := CountIdle(runs);
    if idle > o.trigger {
      var most := idle - o.trigger + 1;
      r := PickToReduceSortedRuns(runs, Rule(UINT_MAX, o.style), most, o.minMergeWidth, o.maxMergeWidth);
      if r.Some? {
        WideBlock(runs, Rule(UINT_MAX, o.style), Min(o.maxMergeWidth, most), Max(o.minMergeWidth, 2), r.value.0,
                  r.value.1);
      }
    }
  }

  lemma WideBlock(runs: seq<Run>, rule: Rule, most: nat, least: nat, a: nat, b: nat)
    requires FirstWide(runs, rule, most, least, Some((a, b))) && least >= 2
    ensures a + 2 <= b <= |runs| && !FirstWide(runs, rule, most, least, None)
  {
    SomeWide(runs, rule, most, least, a, b);
  }

  method CountIdle(runs: seq<Run>) returns (n: nat)
    ensures n == IdleCount(runs)
  {
    n := 0;
    ghost var idle: set<int> := {};
    for i := 0 to |runs|
      invariant idle == set k | 0 <= k < i && !runs[k].Busy()
      invariant n == |idle|
    {
      if !runs[i].Busy() {
        n := n + 1;
        idle := idle + {i};
      }
    }
  }
}
