/** Universal compaction over files: sorted runs are read off the levels, a picked block marks its files, and a
    completed compaction replaces them. */
module UniversalFiles {
  import opened Options
  import opened UniversalRuns

  /** A file with its sizes, the compaction that is rewriting it, and the flushes it comes from. */
  datatype File = File(size: nat, comp: nat, owner: Option<nat>, oldest: nat, newest: nat)

  /** Level 0 has the newest file first. */
  type Levels = seq<seq<File>>

  function SumSize(files: seq<File>): nat {
    if files == [] then 0 else SumSize(files[..|files| - 1]) + files[|files| - 1].size
  }

  function SumComp(files: seq<File>): nat {
    if files == [] then 0 else SumComp(files[..|files| - 1]) + files[|files| - 1].comp
  }

  function Oldest(files: seq<File>): nat
    requires files != []
  {
    if |files| == 1 || files[|files| - 1].oldest < Oldest(files[..|files| - 1]) then files[|files| - 1].oldest
    else Oldest(files[..|files| - 1])
  }

  function Newest(files: seq<File>): nat
    requires files != []
  {
    if |files| == 1 || files[|files| - 1].newest > Newest(files[..|files| - 1]) then files[|files| - 1].newest
    else Newest(files[..|files| - 1])
  }

  /** The files of a level are all rewritten by one compaction, or by none. */
  predicate Uniform(files: seq<File>) {
    forall i | 0 <= i < |files| :: files[i].owner == files[0].owner
  }

  function ZeroRun(f: File): Run {
    Run(0, f.size, f.comp, f.owner, f.oldest, f.newest)
  }

  function LevelRun(l: nat, files: seq<File>): Run
    requires files != []
  {
    Run(l, SumSize(files), SumComp(files), files[0].owner, Oldest(files), Newest(files))
  }

  // ---- The sorted runs of the levels

  /** One run for each file of level 0, then one for each deeper level that has files. */
  ghost predicate RunsOf(levels: Levels, runs: seq<Run>) {
    && levels != [] && |runs| >= |levels[0]|
    && (forall i | 0 <= i < |levels[0]| :: runs[i] == ZeroRun(levels[0][i]))
    && (forall i | |levels[0]| <= i < |runs| :: IsLevelRun(levels, runs[i]))
    && (forall i, j | |levels[0]| <= i < j < |runs| :: runs[i].level < runs[j].level)
    && (forall l | 1 <= l < |levels| && levels[l] != [] :: HasRun(levels, runs, l))
  }

  predicate IsLevelRun(levels: Levels, r: Run) {
    1 <= r.level < |levels| && levels[r.level] != [] && r == LevelRun(r.level, levels[r.level])
  }

  ghost predicate HasRun(levels: Levels, runs: seq<Run>, l: nat)
    requires levels != []
  {
    exists i | |levels[0]| <= i < |runs| :: runs[i].level == l
  }

  /** The next level of `r` is not among the runs of `q` that are the same. */
  lemma FindLevel(levels: Levels, r: seq<Run>, q: seq<Run>, i: nat) returns (j: nat)
    requires RunsOf(levels, r) && RunsOf(levels, q) && |levels[0]| <= i < |r|
    requires forall m | 0 <= m < i && m < |q| :: r[m] == q[m]
    ensures i <= j < |q| && q[j].level == r[i].level
  {
    hide LevelRun;
    assert IsLevelRun(levels, r[i]);
    assert HasRun(levels, q, r[i].level);
    j :| |levels[0]| <= j < |q| && q[j].level == r[i].level;
  }

  lemma Climbs(levels: Levels, r: seq<Run>, i: nat, j: nat)
    requires RunsOf(levels, r) && |levels[0]| <= i <= j < |r|
    ensures r[i].level <= r[j].level
  {
    hide LevelRun;
  }

  /** The levels determine the runs. */
  lemma SameAt(levels: Levels, r: seq<Run>, q: seq<Run>, i: nat)
    requires RunsOf(levels, r) && RunsOf(levels, q) && i < |r| && i <= |q| && forall j | 0 <= j < i :: r[j] == q[j]
    ensures i < |q| && r[i] == q[i]
  {
    if i < |levels[0]| {
      hide LevelRun, IsLevelRun, HasRun;
    } else {
      hide RunsOf, LevelRun;
      var j := FindLevel(levels, r, q, i);
      var m := FindLevel(levels, q, r, i);
      Climbs(levels, q, i, j);
      Climbs(levels, r, i, m);
      DeepLevel(levels, r, i);
      DeepLevel(levels, q, i);
    }
  }

  lemma {:induction false} SamePrefix(levels: Levels, r: seq<Run>, q: seq<Run>, n: nat)
    requires RunsOf(levels, r) && RunsOf(levels, q) && n <= |r|
    ensures n <= |q| && forall j | 0 <= j < n :: r[j] == q[j]
    decreases n
  {
    hide RunsOf;
    if n > 0 {
      SamePrefix(levels, r, q, n - 1);
      SameAt(levels, r, q, n - 1);
    }
  }

  lemma RunsUnique(levels: Levels, r: seq<Run>, q: seq<Run>)
    requires RunsOf(levels, r) && RunsOf(levels, q)
    ensures r == q
  {
    hide RunsOf;
    SamePrefix(levels, r, q, |r|);
    SamePrefix(levels, q, r, |q|);
  }

  /** Files of deeper levels weigh something, so a level without a run is empty. */
  predicate Weighty(files: seq<File>) {
    forall i | 0 <= i < |files| :: files[i].comp > 0
  }

  predicate LevelsOk(levels: Levels) {
    levels != [] && forall l | 1 <= l < |levels| :: Uniform(levels[l]) && Weighty(levels[l])
  }

  lemma WeightyComp(files: seq<File>)
    requires Weighty(files)
    ensures SumComp(files) > 0 <==> files != []
  {
  }

  method CalculateSortedRuns(levels: Levels) returns (runs: seq<Run>)
    requires LevelsOk(levels)
    ensures RunsOf(levels, runs)
  {
    runs := [];
    for i := 0 to |levels[0]|
      invariant |runs| == i && forall k | 0 <= k < i :: runs[k] == ZeroRun(levels[0][k])
    {
      runs := runs + [ZeroRun(levels[0][i])];
    }
    for l := 1 to |levels|
      invariant |runs| >= |levels[0]|
      invariant forall i | 0 <= i < |levels[0]| :: runs[i] == ZeroRun(levels[0][i])
      invariant forall i | |levels[0]| <= i < |runs| :: IsLevelRun(levels, runs[i]) && runs[i].level < l
      invariant forall i, j | |levels[0]| <= i < j < |runs| :: runs[i].level < runs[j].level
      invariant forall m | 1 <= m < l && levels[m] != [] :: HasRun(levels, runs, m)
    {
      var size, comp, owner := SumFiles(levels[l]);
      WeightyComp(levels[l]);
      ghost var before := runs;
      if comp > 0 {
        runs := runs + [Run(l, size, comp, owner, Oldest(levels[l]), Newest(levels[l]))];
        assert runs[|before|].level == l;
      }
      forall m | 1 <= m < l && levels[m] != [] ensures HasRun(levels, runs, m) {
        var i :| |levels[0]| <= i < |before| && before[i].level == m;
        assert runs[i].level == m;
      }
    }
  }

  /** Totals of one level; every file has the state of the first one. */
  method SumFiles(files: seq<File>) returns (size: nat, comp: nat, owner: Option<nat>)
    requires Uniform(files)
    ensures size == SumSize(files) && comp == SumComp(files) && (files != [] ==> owner == files[0].owner)
  {
    size, comp, owner := 0, 0, None;
    for i := 0 to |files|
      invariant size == SumSize(files[..i]) && comp == SumComp(files[..i])
      invariant i > 0 ==> owner == files[0].owner
    {
      assert files[..i + 1][..i] == files[..i];
      size, comp := size + files[i].size, comp + files[i].comp;
      assert i == 0 || files[i].owner == owner;
      if i == 0 {
        owner := files[i].owner;
      }
    }
    assert files[..|files|] == files;
  }

  // ---- Marking the files of a block

  function Taken(files: seq<File>, c: nat): (r: seq<File>)
    ensures |r| == |files| && forall i | 0 <= i < |files| :: r[i] == files[i].(owner := Some(c))
  {
    seq(|files|, i requires 0 <= i < |files| => files[i].(owner := Some(c)))
  }

  lemma {:induction false} TakenSums(files: seq<File>, c: nat)
    ensures SumSize(Taken(files, c)) == SumSize(files) && SumComp(Taken(files, c)) == SumComp(files)
    ensures files != [] ==> Oldest(Taken(files, c)) == Oldest(files) && Newest(Taken(files, c)) == Newest(files)
    decreases |files|
  {
    if files != [] {
      var n := |files| - 1;
      assert Taken(files, c)[..n] == Taken(files[..n], c);
      TakenSums(files[..n], c);
    }
  }

  lemma TakenRun(l: nat, files: seq<File>, c: nat)
    requires files != []
    ensures LevelRun(l, Taken(files, c)) == LevelRun(l, files).(owner := Some(c))
  {
    TakenSums(files, c);
  }

  /** Runs of levels that stay the same. */
  lemma OtherRuns(levels: Levels, runs: seq<Run>, levels': Levels, runs': seq<Run>, l: nat)
    requires RunsOf(levels, runs) && |levels'| == |levels| && |levels'[0]| == |levels[0]| && |runs'| == |runs|
    requires forall m | 1 <= m < |levels| && m != l :: levels'[m] == levels[m]
    requires forall j | 0 <= j < |runs| :: runs'[j].level == runs[j].level
    requires forall j | |levels[0]| <= j < |runs| && runs[j].level != l :: runs'[j] == runs[j]
    requires 1 <= l < |levels| ==> (levels'[l] == [] <==> levels[l] == [])
    ensures forall m | 1 <= m < |levels'| && levels'[m] != [] :: HasRun(levels', runs', m)
    ensures forall j | |levels[0]| <= j < |runs| && runs[j].level != l :: IsLevelRun(levels', runs'[j])
  {
    hide LevelRun;
    forall m | 1 <= m < |levels'| && levels'[m] != [] ensures HasRun(levels', runs', m) {
      assert HasRun(levels, runs, m);
      var j :| |levels[0]| <= j < |runs| && runs[j].level == m;
      assert runs'[j].level == m;
    }
    forall j | |levels[0]| <= j < |runs| && runs[j].level != l ensures IsLevelRun(levels', runs'[j]) {
      assert IsLevelRun(levels, runs[j]);
    }
  }

  /** Marking a file of level 0 marks its run. */
  lemma MarkZero(levels: Levels, runs: seq<Run>, i: nat, c: nat)
    requires RunsOf(levels, runs) && LevelsOk(levels) && i < |levels[0]|
    ensures var levels' := levels[0 := levels[0][i := levels[0][i].(owner := Some(c))]];
            RunsOf(levels', runs[i := runs[i].(owner := Some(c))]) && LevelsOk(levels')
  {
    hide LevelRun, IsLevelRun, HasRun;
    var levels' := levels[0 := levels[0][i := levels[0][i].(owner := Some(c))]];
    OtherRuns(levels, runs, levels', runs[i := runs[i].(owner := Some(c))], 0);
    forall j | |levels[0]| <= j < |runs| ensures runs[j].level != 0 {
      DeepLevel(levels, runs, j);
    }
  }

  lemma DeepLevel(levels: Levels, runs: seq<Run>, j: nat)
    requires RunsOf(levels, runs) && |levels[0]| <= j < |runs|
    ensures 1 <= runs[j].level < |levels| && levels[runs[j].level] != []
    ensures runs[j] == LevelRun(runs[j].level, levels[runs[j].level])
  {
    hide LevelRun;
    assert IsLevelRun(levels, runs[j]);
  }

  /** Marking all files of a deeper level marks its run. */
  lemma MarkLevel(levels: Levels, runs: seq<Run>, i: nat, c: nat)
    requires RunsOf(levels, runs) && LevelsOk(levels) && |levels[0]| <= i < |runs|
    ensures 1 <= runs[i].level < |levels|
    ensures var levels' := levels[runs[i].level := Taken(levels[runs[i].level], c)];
            RunsOf(levels', runs[i := runs[i].(owner := Some(c))]) && LevelsOk(levels')
  {
    hide LevelRun, HasRun;
    DeepLevel(levels, runs, i);
    var l := runs[i].level;
    var levels' := levels[l := Taken(levels[l], c)];
    var runs' := runs[i := runs[i].(owner := Some(c))];
    TakenRun(l, levels[l], c);
    OtherRuns(levels, runs, levels', runs', l);
    forall j | |levels[0]| <= j < |runs| && j != i ensures runs[j].level != l {
      assert j < i ==> runs[j].level < runs[i].level;
      assert i < j ==> runs[i].level < runs[j].level;
    }
  }

  /** Compaction `c` took some files, none of which was being compacted; nothing else changed. */
  ghost predicate OnlyIdleTaken(levels: Levels, levels': Levels, c: nat) {
    && |levels'| == |levels| && (forall l | 0 <= l < |levels| :: |levels'[l]| == |levels[l]|)
    && forall l, i | 0 <= l < |levels| && 0 <= i < |levels[l]| :: SameOrTaken(levels[l][i], levels'[l][i], c)
  }

  predicate SameOrTaken(f: File, f': File, c: nat) {
    f' == f || (f.owner.None? && f' == f.(owner := Some(c)))
  }

  lemma TakeZero(levels0: Levels, levels: Levels, runs: seq<Run>, i: nat, c: nat)
    requires RunsOf(levels, runs) && OnlyIdleTaken(levels0, levels, c) && i < |levels[0]| && !runs[i].Busy()
    ensures OnlyIdleTaken(levels0, levels[0 := levels[0][i := levels[0][i].(owner := Some(c))]], c)
  {
    hide LevelRun, IsLevelRun, HasRun;
    var levels' := levels[0 := levels[0][i := levels[0][i].(owner := Some(c))]];
    forall l, j | 0 <= l < |levels0| && 0 <= j < |levels0[l]| ensures SameOrTaken(levels0[l][j], levels'[l][j], c) {
      assert SameOrTaken(levels0[l][j], levels[l][j], c);
      assert runs[i] == ZeroRun(levels[0][i]);
    }
  }

  lemma TakeLevel(levels0: Levels, levels: Levels, runs: seq<Run>, i: nat, c: nat)
    requires RunsOf(levels, runs) && LevelsOk(levels) && OnlyIdleTaken(levels0, levels, c)
    requires |levels[0]| <= i < |runs| && !runs[i].Busy()
    ensures 1 <= runs[i].level < |levels|
    ensures OnlyIdleTaken(levels0, levels[runs[i].level := Taken(levels[runs[i].level], c)], c)
  {
    DeepLevel(levels, runs, i);
    hide SumSize, SumComp, Oldest, Newest, RunsOf;
    var m := runs[i].level;
    var levels' := levels[m := Taken(levels[m], c)];
    forall l, j | 0 <= l < |levels0| && 0 <= j < |levels0[l]| ensures SameOrTaken(levels0[l][j], levels'[l][j], c) {
      assert SameOrTaken(levels0[l][j], levels[l][j], c);
      assert l == m ==> levels[m][j].owner == levels[m][0].owner;
    }
  }

  /** A flush puts a file in front of level 0 and a run in front of the runs. */
  lemma FlushRuns(levels: Levels, runs: seq<Run>, f: File)
    requires |levels| > 0 && LevelsOk(levels) && RunsOf(levels, runs)
    ensures LevelsOk(levels[0 := [f] + levels[0]]) && RunsOf(levels[0 := [f] + levels[0]], [ZeroRun(f)] + runs)
  {
    hide LevelRun;
    var levels', runs' := levels[0 := [f] + levels[0]], [ZeroRun(f)] + runs;
    assert forall i | 0 < i < |runs'| :: runs'[i] == runs[i - 1];
    ShiftRuns(levels, runs, levels', runs', 0, 0, 1);
  }

  // ---- Removing the files of a compaction

  function Without(files: seq<File>, c: nat): seq<File> {
    if files == [] then []
    else Without(files[..|files| - 1], c) + (if files[|files| - 1].owner == Some(c) then [] else [files[|files| - 1]])
  }

  lemma {:induction false} WithoutNone(files: seq<File>, c: nat)
    requires forall i | 0 <= i < |files| :: files[i].owner != Some(c)
    ensures Without(files, c) == files
    decreases |files|
  {
    if files != [] {
      WithoutNone(files[..|files| - 1], c);
    }
  }

  lemma {:induction false} WithoutAll(files: seq<File>, c: nat)
    requires forall i | 0 <= i < |files| :: files[i].owner == Some(c)
    ensures Without(files, c) == []
    decreases |files|
  {
    if files != [] {
      WithoutAll(files[..|files| - 1], c);
    }
  }

  lemma {:induction false} WithoutJoin(x: seq<File>, y: seq<File>, c: nat)
    ensures Without(x + y, c) == Without(x, c) + Without(y, c)
    decreases |y|
  {
    if y == [] {
      assert x + y == x;
    } else {
      assert (x + y)[..|x + y| - 1] == x + y[..|y| - 1];
      WithoutJoin(x, y[..|y| - 1], c);
    }
  }

  /** Of consecutive files of a compaction only those around stay. */
  lemma WithoutBlock(files: seq<File>, c: nat, a: nat, b: nat)
    requires a <= b <= |files| && forall i | 0 <= i < |files| :: files[i].owner == Some(c) <==> a <= i < b
    ensures Without(files, c) == files[..a] + files[b..]
  {
    hide Without;
    assert files == files[..a] + (files[a..b] + files[b..]);
    WithoutJoin(files[..a], files[a..b] + files[b..], c);
    WithoutJoin(files[a..b], files[b..], c);
    WithoutNone(files[..a], c);
    WithoutAll(files[a..b], c);
    WithoutNone(files[b..], c);
  }

  function Cleared(levels: Levels, c: nat): (r: Levels)
    ensures |r| == |levels| && forall l | 0 <= l < |levels| :: r[l] == Without(levels[l], c)
  {
    seq(|levels|, l requires 0 <= l < |levels| => Without(levels[l], c))
  }

  // ---- Completion

  /** Where the output goes: its place in level 0, or a deeper level of its own. */
  function Placed(levels: Levels, out: nat, pos: nat, outputs: seq<File>): Levels
    requires out < |levels| && (out == 0 ==> pos <= |levels[0]|)
  {
    if out == 0 then levels[0 := levels[0][..pos] + outputs + levels[0][pos..]]
    else levels[out := levels[out] + outputs]
  }

  /** The run that the output files form. */
  function OutputRun(out: nat, outputs: seq<File>): seq<Run> {
    if outputs == [] then [] else if out == 0 then [ZeroRun(outputs[0])] else [LevelRun(out, outputs)]
  }

  /** What a compaction may leave: files that nobody rewrites, from the flushes of its block, one at most in level 0. */
  ghost predicate OutputsOk(runs: seq<Run>, a: nat, b: nat, out: nat, outputs: seq<File>)
    requires a < b <= |runs|
  {
    && (out == 0 ==> |outputs| <= 1)
    && forall f | f in outputs ::
         f.owner.None? && f.comp > 0 && runs[b - 1].oldest <= f.oldest <= f.newest <= runs[a].newest
  }

  lemma {:induction false} TimesWithin(files: seq<File>, lo: nat, hi: nat)
    requires files != [] && forall f | f in files :: lo <= f.oldest <= f.newest <= hi
    ensures lo <= Oldest(files) <= Newest(files) <= hi
    decreases |files|
  {
    if |files| > 1 {
      TimesWithin(files[..|files| - 1], lo, hi);
    }
    assert files[|files| - 1] in files;
  }

  lemma OutputMerged(runs: seq<Run>, a: nat, b: nat, out: nat, outputs: seq<File>)
    requires a < b <= |runs| && OutputsOk(runs, a, b, out, outputs)
    ensures Merged(runs, a, b, out, OutputRun(out, outputs))
  {
    if outputs != [] {
      assert outputs[0] in outputs;
      TimesWithin(outputs, runs[b - 1].oldest, runs[a].newest);
    }
  }

  /** A compaction to level 0 has its block there. */
  lemma FinishZero(levels: Levels, runs: seq<Run>, c: nat, a: nat, b: nat, outputs: seq<File>)
    requires RunsOf(levels, runs) && LevelsOk(levels) && Block(runs, c, a, b) && |outputs| <= 1
    requires forall i | a <= i < b :: runs[i].level == 0
    ensures a <= b <= |levels[0]| && Without(levels[0], c) == levels[0][..a] + levels[0][b..]
    ensures var levels' := Placed(Cleared(levels, c), 0, a, outputs);
            RunsOf(levels', Replaced(runs, a, b, OutputRun(0, outputs))) && LevelsOk(levels')
  {
    hide LevelRun;
    assert b <= |levels[0]| by {
      if b > |levels[0]| {
        DeepLevel(levels, runs, b - 1);
      }
    }
    ZeroOwners(levels, runs, c, a, b);
    WithoutBlock(levels[0], c, a, b);
    hide Without;
    forall l | 1 <= l < |levels| ensures Without(levels[l], c) == levels[l] {
      OtherLevel(levels, runs, c, a, b, l);
    }
    var levels' := Placed(Cleared(levels, c), 0, a, outputs);
    var runs' := Replaced(runs, a, b, OutputRun(0, outputs));
    assert levels'[0] == levels[0][..a] + outputs + levels[0][b..];
    ShiftRuns(levels, runs, levels', runs', a, b, |outputs|);
  }

  lemma ZeroOwners(levels: Levels, runs: seq<Run>, c: nat, a: nat, b: nat)
    requires RunsOf(levels, runs) && Block(runs, c, a, b)
    ensures forall i | 0 <= i < |levels[0]| :: levels[0][i].owner == Some(c) <==> a <= i < b
  {
    hide IsLevelRun, HasRun;
    forall i | 0 <= i < |levels[0]| ensures levels[0][i].owner == Some(c) <==> a <= i < b {
      assert runs[i].owner == levels[0][i].owner;
    }
  }

  /** A deeper level whose run is not in the block stays. */
  lemma OtherLevel(levels: Levels, runs: seq<Run>, c: nat, a: nat, b: nat, l: nat)
    requires RunsOf(levels, runs) && LevelsOk(levels) && Block(runs, c, a, b) && 1 <= l < |levels|
    requires forall i | a <= i < b :: runs[i].level != l
    ensures Without(levels[l], c) == levels[l]
  {
    hide Without;
    if levels[l] != [] {
      assert HasRun(levels, runs, l);
      var i :| |levels[0]| <= i < |runs| && runs[i].level == l;
      DeepLevel(levels, runs, i);
      assert runs[i].owner != Some(c);
    }
    WithoutNone(levels[l], c);
  }

  /** A deeper level whose run is in the block goes. */
  lemma BlockLevel(levels: Levels, runs: seq<Run>, c: nat, a: nat, b: nat, i: nat)
    requires RunsOf(levels, runs) && LevelsOk(levels) && Block(runs, c, a, b) && a <= i < b && i >= |levels[0]|
    ensures 1 <= runs[i].level < |levels| && Without(levels[runs[i].level], c) == []
  {
    hide Without;
    DeepLevel(levels, runs, i);
    WithoutAll(levels[runs[i].level], c);
  }

  /** Deeper runs keep their order when those of level 0 change. */
  lemma ShiftRuns(levels: Levels, runs: seq<Run>, levels': Levels, runs': seq<Run>, a: nat, b: nat, w: nat)
    requires RunsOf(levels, runs) && LevelsOk(levels) && a <= b <= |levels[0]| && |levels'| == |levels|
    requires forall l | 1 <= l < |levels| :: levels'[l] == levels[l]
    requires |levels'[0]| == |levels[0]| - (b - a) + w && |runs'| == |runs| - (b - a) + w
    requires forall i | 0 <= i < |levels'[0]| :: runs'[i] == ZeroRun(levels'[0][i])
    requires forall i | |levels'[0]| <= i < |runs'| :: runs'[i] == runs[i + (b - a) - w]
    ensures RunsOf(levels', runs') && LevelsOk(levels')
  {
    hide LevelRun;
    var n := b - a - w;
    forall l | 1 <= l < |levels'| && levels'[l] != [] ensures HasRun(levels', runs', l) {
      assert HasRun(levels, runs, l);
      var i :| |levels[0]| <= i < |runs| && runs[i].level == l;
      assert runs'[i - n] == runs[i];
    }
    forall i | |levels'[0]| <= i < |runs'| ensures IsLevelRun(levels', runs'[i]) {
      assert IsLevelRun(levels, runs[i + n]);
    }
  }

  // ---- Completion at a deeper level

  /** The block and its surroundings: deeper runs before it are at lower levels than its output, those after it at
      higher. */
  ghost predicate Between(runs: seq<Run>, a: nat, b: nat, out: nat)
    requires a < b <= |runs|
  {
    && (forall i | 0 <= i < a :: runs[i].level == 0 || runs[i].level < runs[a].level)
    && (forall i | a <= i < b :: runs[i].level <= out && runs[i].level >= runs[a].level)
    && (forall i | b <= i < |runs| :: runs[i].level > out)
  }

  lemma FitsBetween(runs: seq<Run>, numLevels: nat, c: nat, a: nat, b: nat, out: nat)
    requires Ordered(runs, numLevels) && Block(runs, c, a, b) && OutputFits(runs, c, out, numLevels) && out > 0
    ensures Between(runs, a, b, out)
  {
    assert runs[a].owner == Some(c);
    forall i | 0 <= i < a ensures runs[i].level == 0 || runs[i].level < runs[a].level {
      assert Below(runs[i].level, runs[a].level);
    }
    forall i | a < i < b ensures runs[i].level >= runs[a].level {
      assert Below(runs[a].level, runs[i].level);
    }
    forall i | b <= i < |runs| ensures runs[i].level > out {
      assert Below(out, runs[i].level);
    }
  }

  /** Level 0 keeps what lies before the block. */
  lemma DeepZero(levels: Levels, runs: seq<Run>, c: nat, a: nat, b: nat, out: nat)
    requires RunsOf(levels, runs) && Block(runs, c, a, b) && Between(runs, a, b, out)
    ensures Without(levels[0], c) == if a < |levels[0]| then levels[0][..a] else levels[0]
  {
    hide Without, IsLevelRun, HasRun, LevelRun;
    var n := |levels[0]|;
    ZeroOwners(levels, runs, c, a, b);
    if a < n {
      assert b < n ==> runs[b] == ZeroRun(levels[0][b]);
      WithoutBlock(levels[0], c, a, n);
      assert levels[0][..a] + levels[0][n..] == levels[0][..a];
    } else {
      WithoutNone(levels[0], c);
    }
  }

  /** The output level has no other files left. */
  lemma OutputLevelFree(levels: Levels, runs: seq<Run>, c: nat, a: nat, b: nat, out: nat)
    requires RunsOf(levels, runs) && LevelsOk(levels) && Block(runs, c, a, b) && Between(runs, a, b, out)
    requires 1 <= out < |levels|
    ensures Without(levels[out], c) == []
  {
    hide Without, LevelRun;
    if levels[out] != [] {
      assert HasRun(levels, runs, out);
      var i :| |levels[0]| <= i < |runs| && runs[i].level == out;
      assert a <= i < b;
      BlockLevel(levels, runs, c, a, b, i);
    } else {
      WithoutNone(levels[out], c);
    }
  }

  /** A run outside the block keeps its level's files, and the output does not go there. */
  lemma OutsideRun(levels: Levels, runs: seq<Run>, c: nat, a: nat, b: nat, out: nat, i: nat)
    requires RunsOf(levels, runs) && LevelsOk(levels) && Block(runs, c, a, b) && Between(runs, a, b, out)
    requires |levels[0]| <= i < |runs| && !(a <= i < b)
    ensures 1 <= runs[i].level < |levels| && runs[i].level != out
    ensures Without(levels[runs[i].level], c) == levels[runs[i].level] != []
    ensures runs[i] == LevelRun(runs[i].level, levels[runs[i].level])
  {
    hide Without, LevelRun, HasRun;
    DeepLevel(levels, runs, i);
    forall j | a <= j < b ensures runs[j].level != runs[i].level {
      if i < a {
        assert runs[i].level < runs[a].level;
      }
    }
    OtherLevel(levels, runs, c, a, b, runs[i].level);
  }

  lemma OutputRunLevel(out: nat, outputs: seq<File>)
    ensures |OutputRun(out, outputs)| <= 1 && (OutputRun(out, outputs) == [] <==> outputs == [])
    ensures outputs != [] ==> OutputRun(out, outputs)[0].level == out
  {
  }

  lemma FinishDeep(levels: Levels, runs: seq<Run>, c: nat, a: nat, b: nat, out: nat, outputs: seq<File>)
    requires RunsOf(levels, runs) && LevelsOk(levels) && Block(runs, c, a, b) && Between(runs, a, b, out)
    requires 1 <= out < |levels|
    requires Uniform(outputs) && Weighty(outputs)
    ensures var levels' := Placed(Cleared(levels, c), out, 0, outputs);
            RunsOf(levels', Replaced(runs, a, b, OutputRun(out, outputs))) && LevelsOk(levels')
  {
    hide Without, LevelRun, RunsOf, Between;
    var levels' := Placed(Cleared(levels, c), out, 0, outputs);
    var merged := OutputRun(out, outputs);
    var runs' := Replaced(runs, a, b, merged);
    DeepZero(levels, runs, c, a, b, out);
    OutputLevelFree(levels, runs, c, a, b, out);
    assert levels'[out] == outputs;
    FinishLevels(levels, runs, c, a, b, out, outputs);
    FinishRuns(levels, runs, c, a, b, out, outputs);
  }

  /** The levels after the compaction. */
  lemma FinishLevels(levels: Levels, runs: seq<Run>, c: nat, a: nat, b: nat, out: nat, outputs: seq<File>)
    requires RunsOf(levels, runs) && LevelsOk(levels) && Block(runs, c, a, b) && Between(runs, a, b, out)
    requires 1 <= out < |levels|
    requires Uniform(outputs) && Weighty(outputs) && Without(levels[out], c) == []
    ensures LevelsOk(Placed(Cleared(levels, c), out, 0, outputs))
  {
    hide Without, LevelRun;
    forall l | 1 <= l < |levels| && l != out ensures Without(levels[l], c) in [levels[l], []] {
      if exists i :: a <= i < b && runs[i].level == l {
        var i :| a <= i < b && runs[i].level == l;
        assert i >= |levels[0]|;
        BlockLevel(levels, runs, c, a, b, i);
      } else {
        OtherLevel(levels, runs, c, a, b, l);
      }
    }
    assert [] + outputs == outputs;
  }

  lemma FinishRuns(levels: Levels, runs: seq<Run>, c: nat, a: nat, b: nat, out: nat, outputs: seq<File>)
    requires RunsOf(levels, runs) && LevelsOk(levels) && Block(runs, c, a, b) && Between(runs, a, b, out)
    requires 1 <= out < |levels|
    requires Without(levels[out], c) == []
    requires Without(levels[0], c) == if a < |levels[0]| then levels[0][..a] else levels[0]
    ensures RunsOf(Placed(Cleared(levels, c), out, 0, outputs), Replaced(runs, a, b, OutputRun(out, outputs)))
  {
    hide Without, LevelRun, HasRun;
    OutputRunLevel(out, outputs);
    var levels' := Placed(Cleared(levels, c), out, 0, outputs);
    var merged := OutputRun(out, outputs);
    var runs', w := Replaced(runs, a, b, merged), |merged|;
    var n, n' := |levels[0]|, |levels'[0]|;
    assert levels'[out] == [] + outputs == outputs && levels'[0] == Without(levels[0], c);
    forall i | n' <= i < |runs'| ensures IsLevelRun(levels', runs'[i]) {
      FinishAt(levels, runs, c, a, b, out, outputs, i);
    }
    forall i, j | n' <= i < j < |runs'| ensures runs'[i].level < runs'[j].level {
      FinishClimbs(levels, runs, a, b, out, merged, i, j);
    }
    forall l | 1 <= l < |levels'| && levels'[l] != [] ensures HasRun(levels', runs', l) {
      FinishHas(levels, runs, c, a, b, out, outputs, l);
    }
  }

  lemma FinishAt(levels: Levels, runs: seq<Run>, c: nat, a: nat, b: nat, out: nat, outputs: seq<File>, i: nat)
    requires RunsOf(levels, runs) && LevelsOk(levels) && Block(runs, c, a, b) && Between(runs, a, b, out)
    requires 1 <= out < |levels|
    requires Without(levels[out], c) == []
    requires i < |Replaced(runs, a, b, OutputRun(out, outputs))| && (i >= |levels[0]| || i >= a)
    ensures IsLevelRun(Placed(Cleared(levels, c), out, 0, outputs), Replaced(runs, a, b, OutputRun(out, outputs))[i])
  {
    hide Without, LevelRun, HasRun;
    var w := |OutputRun(out, outputs)|;
    assert [] + outputs == outputs;
    OutputRunLevel(out, outputs);
    if !(a <= i < a + w) {
      var k := if i < a then i else i - w + b - a;
      RunLevel(levels, runs, k);
      OutsideRun(levels, runs, c, a, b, out, k);
    }
  }

  lemma FinishClimbs(levels: Levels, runs: seq<Run>, a: nat, b: nat, out: nat, merged: seq<Run>, i: nat, j: nat)
    requires RunsOf(levels, runs) && a < b <= |runs| && Between(runs, a, b, out) && out > 0
    requires |merged| <= 1 && (merged != [] ==> merged[0].level == out)
    requires i < j < |Replaced(runs, a, b, merged)| && (i >= |levels[0]| || i >= a)
    ensures Replaced(runs, a, b, merged)[i].level < Replaced(runs, a, b, merged)[j].level
  {
    hide LevelRun, IsLevelRun, HasRun;
    var runs', w := Replaced(runs, a, b, merged), |merged|;
    if i < a {
      DeepLevel(levels, runs, i);
    }
  }

  lemma RunOfLevel(levels: Levels, runs: seq<Run>, l: nat) returns (i: nat)
    requires RunsOf(levels, runs) && 1 <= l < |levels| && levels[l] != []
    ensures |levels[0]| <= i < |runs| && runs[i].level == l
  {
    hide LevelRun, IsLevelRun;
    assert HasRun(levels, runs, l);
    i :| |levels[0]| <= i < |runs| && runs[i].level == l;
  }

  lemma FinishHas(levels: Levels, runs: seq<Run>, c: nat, a: nat, b: nat, out: nat, outputs: seq<File>, l: nat)
    requires RunsOf(levels, runs) && LevelsOk(levels) && Block(runs, c, a, b) && Between(runs, a, b, out)
    requires 1 <= out < |levels|
    requires Without(levels[out], c) == []
    requires Without(levels[0], c) == if a < |levels[0]| then levels[0][..a] else levels[0]
    requires 1 <= l < |levels| && Placed(Cleared(levels, c), out, 0, outputs)[l] != []
    ensures HasRun(Placed(Cleared(levels, c), out, 0, outputs), Replaced(runs, a, b, OutputRun(out, outputs)), l)
  {
    hide Without, LevelRun, RunsOf, Between, LevelsOk, OutputRun;
    var levels' := Placed(Cleared(levels, c), out, 0, outputs);
    var merged := OutputRun(out, outputs);
    var runs', w := Replaced(runs, a, b, merged), |merged|;
    OutputRunLevel(out, outputs);
    if l == out {
      assert [] + outputs == outputs;
      assert runs'[a] == merged[0];
    } else {
      if levels[l] == [] {
        WithoutNone(levels[l], c);
      }
      var i := RunOfLevel(levels, runs, l);
      if a <= i < b {
        BlockLevel(levels, runs, c, a, b, i);
      }
      var k := if i < a then i else i - (b - a) + w;
      assert runs'[k] == runs[i];
    }
  }

  // ---- The picker

  class UniversalPicker {
    var levels: Levels
    var outs: map<nat, nat>
    var flushes: nat
    var next: nat
    ghost var runs: seq<Run>

    /** The sorted runs of the levels: running compactions are disjoint blocks of consecutive runs, with output levels
        in time order; and each deeper level is rewritten as a whole. */
    ghost predicate Valid()
      reads this
    {
      && LevelsOk(levels) && RunsOf(levels, runs) && RunsOk(runs, outs, |levels|)
      && (forall i | 0 <= i < |runs| :: runs[i].newest < flushes)
      && (forall c | c in outs :: c < next)
    }

    constructor (numLevels: nat)
      requires numLevels > 0
      ensures Valid() && |levels| == numLevels && runs == [] && outs == map[]
    {
      levels := seq(numLevels, _ => []);
      outs, flushes, next := map[], 0, 0;
      runs := [];
    }

    /** A flush adds a file in front of level 0. */
    method Flush(size: nat, comp: nat)
      requires Valid()
      modifies this
      ensures Valid() && outs == old(outs)
      ensures levels == old(levels)[0 := [File(size, comp, None, old(flushes), old(flushes))] + old(levels)[0]]
      ensures runs == [Run(0, size, comp, None, old(flushes), old(flushes))] + old(runs)
    {
      hide LevelRun, RunsOk, RunsOf, Uniform, Weighty;
      var f := File(size, comp, None, flushes, flushes);
      FlushOk(runs, outs, |levels|, ZeroRun(f));
      FlushRuns(levels, runs, f);
      levels, runs := levels[0 := [f] + levels[0]], [ZeroRun(f)] + runs;
      flushes := flushes + 1;
    }

    /** Starts a compaction of a block of idle runs: it takes all files of each. No file of it was being compacted. */
    method Pick(o: Settings) returns (picked: Option<nat>)
      requires Valid()
      modifies this
      ensures Valid() && |levels| == |old(levels)|
      ensures picked.None? ==> levels == old(levels) && runs == old(runs) && outs == old(outs) && Choice(runs, o, None)
      ensures picked.Some? ==>
                && picked.value !in old(outs) && OnlyIdleTaken(old(levels), levels, picked.value)
                && exists a: nat, b: nat ::
                     && a + 2 <= b <= |old(runs)| && AllIdle(old(runs), a, b) && Choice(old(runs), o, Some((a, b)))
                     && runs == Owned(old(runs), a, b, picked.value)
                     && outs == old(outs)[picked.value := OutputLevel(old(runs), b, |levels|)]
    {
      hide LevelRun, RunsOf, RunsOk, Choice, OutputLevel;
      assert |levels| > 0;
      var sorted := CalculateSortedRuns(levels);
      RunsUnique(levels, sorted, runs);
      var r := ChooseBlock(sorted, o, outs, |levels|);
      if r.None? {
        return None;
      }
      var (a, b) := r.value;
      var out := OutputLevel(sorted, b, |levels|);
      PickOk(runs, outs, |levels|, a, b, next);
      Mark(sorted, a, b, next);
      outs := outs[next := out];
      picked := Some(next);
      next := next + 1;
    }

    /** Marks the files of a block as being compacted. */
    method Mark(sorted: seq<Run>, a: nat, b: nat, c: nat)
      requires LevelsOk(levels) && RunsOf(levels, runs) && sorted == runs && a <= b <= |runs| && AllIdle(runs, a, b)
      modifies `levels, `runs
      ensures LevelsOk(levels) && RunsOf(levels, runs) && runs == Owned(old(runs), a, b, c)
      ensures OnlyIdleTaken(old(levels), levels, c)
    {
      hide LevelRun, RunsOf, LevelsOk;
      assert OnlyIdleTaken(levels, levels, c);
      hide OnlyIdleTaken;
      assert runs == Owned(runs, a, a, c);
      for i := a to b
        invariant LevelsOk(levels) && RunsOf(levels, runs) && runs == Owned(old(runs), a, i, c)
        invariant OnlyIdleTaken(old(levels), levels, c)
      {
        RunLevel(levels, runs, i);
        if sorted[i].level == 0 {
          TakeZero(old(levels), levels, runs, i, c);
          MarkZero(levels, runs, i, c);
          levels := levels[0 := levels[0][i := levels[0][i].(owner := Some(c))]];
        } else {
          TakeLevel(old(levels), levels, runs, i, c);
          MarkLevel(levels, runs, i, c);
          levels := levels[sorted[i].level := Taken(levels[sorted[i].level], c)];
        }
        runs := runs[i := runs[i].(owner := Some(c))];
        assert runs == Owned(old(runs), a, i + 1, c);
      }
    }

    /** A compaction ends: its files go, and its output files take their place as one run, or there are none. */
    method Finish(c: nat, outputs: seq<File>, ghost a: nat, ghost b: nat)
      requires Valid() && c in outs && Block(runs, c, a, b) && OutputsOk(runs, a, b, outs[c], outputs)
      modifies `levels, `outs, `runs
      ensures Valid() && |levels| == |old(levels)| && outs == old(outs) - {c}
      ensures runs == Replaced(old(runs), a, b, OutputRun(old(outs)[c], outputs))
      ensures forall l, f | 0 <= l < |levels| && f in levels[l] :: f.owner != Some(c)
    {
      hide LevelRun, RunsOf, RunsOk, Without, Uniform, Weighty;
      var out := outs[c];
      OutputMerged(runs, a, b, out, outputs);
      FinishOk(runs, outs, |levels|, c, a, b, OutputRun(out, outputs));
      var pos := FirstOf(levels[0], c);
      var cleared := Cleared(levels, c);
      FinishFiles(levels, runs, outs, c, a, b, outputs, pos);
      levels := Placed(cleared, out, if out == 0 then pos else 0, outputs);
      runs := Replaced(runs, a, b, OutputRun(out, outputs));
      outs := outs - {c};
    }
  }

  lemma FinishFiles(levels: Levels, runs: seq<Run>, outs: map<nat, nat>, c: nat, a: nat, b: nat, outputs: seq<File>,
          pos: nat)
    requires LevelsOk(levels) && RunsOf(levels, runs) && RunsOk(runs, outs, |levels|) && c in outs
    requires Block(runs, c, a, b)
    requires OutputsOk(runs, a, b, outs[c], outputs)
    requires pos <= |levels[0]| && (forall i | 0 <= i < pos :: levels[0][i].owner != Some(c))
    requires pos < |levels[0]| ==> levels[0][pos].owner == Some(c)
    ensures outs[c] < |levels| && (outs[c] == 0 ==> pos <= |Without(levels[0], c)|)
    ensures var levels' := Placed(Cleared(levels, c), outs[c], if outs[c] == 0 then pos else 0, outputs);
            && RunsOf(levels', Replaced(runs, a, b, OutputRun(outs[c], outputs))) && LevelsOk(levels')
            && forall l, f | 0 <= l < |levels'| && f in levels'[l] :: f.owner != Some(c)
  {
    hide LevelRun, RunsOf, Without, LevelsOk, Ordered;
    var out := outs[c];
    assert OutputFits(runs, c, out, |levels|);
    if out == 0 {
      forall i | a <= i < b ensures runs[i].level == 0 {
        assert runs[i].owner == Some(c);
      }
      FinishZero(levels, runs, c, a, b, outputs);
      ZeroOwners(levels, runs, c, a, b);
      assert levels[0][a].owner == Some(c);
      assert pos == a;
    } else {
      FitsBetween(runs, |levels|, c, a, b, out);
      forall i | 0 <= i < |outputs| ensures outputs[i].owner == None && outputs[i].comp > 0 {
        assert outputs[i] in outputs;
      }
      FinishDeep(levels, runs, c, a, b, out, outputs);
    }
    forall l | 0 <= l < |levels| ensures forall f | f in Without(levels[l], c) :: f.owner != Some(c) {
      WithoutFree(levels[l], c);
    }
  }

  lemma {:induction false} WithoutFree(files: seq<File>, c: nat)
    ensures forall f | f in Without(files, c) :: f.owner != Some(c)
    decreases |files|
  {
    if files != [] {
      WithoutFree(files[..|files| - 1], c);
    }
  }

  lemma RunLevel(levels: Levels, runs: seq<Run>, i: nat)
    requires RunsOf(levels, runs) && i < |runs|
    ensures levels != [] && runs[i].level < |levels| && (runs[i].level == 0 <==> i < |levels[0]|)
  {
    hide LevelRun;
    if i >= |levels[0]| {
      DeepLevel(levels, runs, i);
    }
  }

  /** Position of the first file of a compaction. */
  method FirstOf(files: seq<File>, c: nat) returns (pos: nat)
    ensures pos <= |files| && (forall i | 0 <= i < pos :: files[i].owner != Some(c))
    ensures pos < |files| ==> files[pos].owner == Some(c)
  {
    pos := 0;
    while pos < |files| && files[pos].owner != Some(c)
      invariant pos <= |files| && forall i | 0 <= i < pos :: files[i].owner != Some(c)
    {
      pos := pos + 1;
    }
  }
}
