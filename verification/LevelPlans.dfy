/** What a compaction was told about the levels below it stays true while it runs. */
module LevelPlans {
  import opened LevelFiles
  import opened LevelZero
  import opened LevelState
  import opened LevelRecords
  import opened LevelFlat
  import opened LevelJobs
  import opened LevelOrder
  import R = Records
  import P = Compactions
  import I = IteratorSpec

  /** The compactions that are picked go from level 0 or down by one level at most. */
  predicate Usual(c: Compaction) {
    c.start == 0 || c.output <= c.start + 1
  }

  predicate After(files: seq<File>, s: set<nat>, j: nat) {
    j < |files| && forall i | 0 <= i < |files| && files[i].number in s :: i < j
  }

  /** A file that is read after all inputs of the compaction. */
  ghost predicate Under(levels: Levels, c: Compaction, f: File)
    requires c.output < |levels|
  {
    || (exists l: nat | l > c.output :: IsFile(levels, l, f))
    || (c.output == 0 && exists j: nat | After(levels[0], c.inputs, j) :: levels[0][j] == f)
  }

  lemma BelowIsUnder(levels: Levels, c: Compaction, f: File)
    requires c.output < |levels| && f in Below(levels, c)
    ensures Under(levels, c, f)
  {
    var e := Ends(levels[0], c.inputs);
    if c.output == 0 && f in levels[0][e..] {
      var j :| 0 <= j < |levels[0][e..]| && levels[0][e..][j] == f;
      assert After(levels[0], c.inputs, e + j);
    } else {
      var l := FileOf(levels[c.output + 1..], f);
      assert IsFile(levels, c.output + 1 + l, f);
    }
  }

  lemma UnderIsBelow(levels: Levels, c: Compaction, f: File)
    requires c.output < |levels| && Under(levels, c, f)
    ensures f in Below(levels, c)
  {
    if l: nat :| l > c.output && IsFile(levels, l, f) {
      assert IsFile(levels[c.output + 1..], l - c.output - 1, f);
      InFiles(levels[c.output + 1..], l - c.output - 1, f);
    } else {
      var j: nat :| After(levels[0], c.inputs, j) && levels[0][j] == f;
      AfterEnds(levels[0], c.inputs, j);
    }
  }

  lemma AfterEnds(files: seq<File>, s: set<nat>, j: nat)
    requires After(files, s, j)
    ensures files[j] in files[Ends(files, s)..]
  {
    var e := Ends(files, s);
    assert e > 0 ==> files[e - 1].number in s;
    assert files[e..][j - e] == files[j];
  }

  // ---- Completions

  lemma TracedAfter(files: seq<File>, files': seq<File>, gone: set<nat>, added: seq<File>, at: seq<nat>, s: set<nat>,
          j: nat)
    requires Traces(files, files', gone, added, at) && Distinct(files) && s !! gone && After(files', s, j)
    requires forall f | f in files && f.number !in gone :: f in files'
    requires forall f | f in added :: f.number !in s
    ensures After(files, s, at[j])
  {
  }

  /** A file that comes after the inputs of `d` took the place of one that did. */
  lemma CameAfter(levels: Levels, c: Compaction, d: Compaction, added: seq<File>, j: nat) returns (i: nat)
    requires LevelsOk(levels) && Standing(levels, c) && Standing(levels, d) && c.inputs !! d.inputs
    requires Outputs(levels, c, added) && After(Finished(levels, c, added)[0], d.inputs, j)
    ensures After(levels[0], d.inputs, i)
    ensures var f := Finished(levels, c, added)[0][j];
            f == levels[0][i] || (f in added && c.output == 0 && levels[0][i].number in c.inputs)
  {
    AddedOther(levels, added, d);
    FinishedChanged(levels, c, added);
    hide Traces, Replace, Standing, After;
    var files, files', new' := levels[0], Finished(levels, c, added)[0], if c.output == 0 then added else [];
    forall f | f in files && f.number !in c.inputs ensures f in files' {
      assert IsFile(levels, 0, f);
    }
    var at := ReplaceTraces(files, c.inputs, new');
    TracedAfter(files, files', c.inputs, new', at, d.inputs, j);
    TracedFrom(files, files', c.inputs, new', at, d.inputs, j);
    i := at[j];
  }

  lemma TracedFrom(files: seq<File>, files': seq<File>, gone: set<nat>, added: seq<File>, at: seq<nat>, s: set<nat>,
          j: nat)
    requires Traces(files, files', gone, added, at) && After(files', s, j)
    ensures j < |at| && at[j] < |files|
    ensures files'[j] == files[at[j]] || (files'[j] in added && files[at[j]].number in gone)
  {
  }

  /** The inputs of a compaction within level 0 are next to each other, so all are after the inputs of `d` or none. */
  lemma AllAfter(files: seq<File>, c: Compaction, d: Compaction, i: nat, y: nat)
    requires Together(files, c.inputs) && c.inputs !! d.inputs && After(files, d.inputs, i) && y < |files|
    requires files[i].number in c.inputs && files[y].number in c.inputs
    ensures After(files, d.inputs, y)
  {
  }

  /** An input of `c` with a key of `d` that goes to a level below `d` is below `d` already. */
  lemma LevelBelow(levels: Levels, c: Compaction, d: Compaction, m: nat, g: File, k: Key)
    requires Standing(levels, c) && Standing(levels, d) && Compatible(c, d) && Usual(c) && d.output < c.output
    requires IsFile(levels, m, g) && g.number in c.inputs && g.smallest <= k <= g.largest && d.lo <= k <= d.hi
    ensures m > d.output || (m == 0 == d.output && c.start == 0)
  {
    var l, f := SomeInput(levels, d);
    hide StartClear, ZeroClear, ZeroTogether, Present;
    assert m == c.start || m == c.output;
  }

  lemma InputUnder(levels: Levels, c: Compaction, d: Compaction, m: nat, g: File, k: Key)
    requires Standing(levels, c) && Standing(levels, d) && Compatible(c, d) && Usual(c) && d.output < c.output
    requires ZeroOrder(levels[0], c, d)
    requires IsFile(levels, m, g) && g.number in c.inputs && g.smallest <= k <= g.largest && d.lo <= k <= d.hi
    ensures Under(levels, d, g)
  {
    LevelBelow(levels, c, d, m, g, k);
    hide Standing;
    if m == 0 {
      var y :| 0 <= y < |levels[0]| && levels[0][y] == g;
      assert After(levels[0], d.inputs, y);
    }
  }

  /** The input file from which a record of an output file comes. */
  lemma InputFile(levels: Levels, c: Compaction, data: Contents, cfg: I.Config, input: seq<R.Record>, added: seq<File>,
          f: File, z: R.Record)
    returns (m: nat, g: File, p: R.Record)
    requires Standing(levels, c) && Stored(levels, data) && c.output < |levels|
    requires Job(levels, c, data, cfg, input, added) && f in added && z in Of(f, data)
    ensures IsFile(levels, m, g) && g.number in c.inputs && p in Of(g, data) && p.key == z.key
    ensures g.smallest <= p.key <= g.largest
  {
    hide Standing, Job, InOrder, Upper;
    RecordIn(added, data);
    p := OutputPlace(levels, c, data, cfg, input, added, z);
    var u := Upper(levels, c);
    var i := SelectedAt(u, c.inputs, true, data, p);
    g := u[i];
    UpperBelow(levels, c);
    m := FileOf(levels, g);
    assert g in FilesOf(levels) && FileHolds(g, data);
  }

  /** A key below `d` after the completion of `c` was below it before. */
  lemma CameFrom(levels: Levels, c: Compaction, d: Compaction, data: Contents, cfg: I.Config, input: seq<R.Record>,
          added: seq<File>, f: File, z: R.Record)
    returns (g: File, p: R.Record)
    requires LevelsOk(levels) && Standing(levels, c) && Standing(levels, d) && Compatible(c, d) && Usual(c)
    requires ZeroOrder(levels[0], c, d) && Outputs(levels, c, added) && Stored(levels, data)
    requires c.output < |levels| && d.output < |levels| && Job(levels, c, data, cfg, input, added)
    requires Under(Finished(levels, c, added), d, f) && z in Of(f, data) && d.lo <= z.key <= d.hi
    ensures Under(levels, d, g) && p in Of(g, data) && p.key == z.key
  {
    FinishedChanged(levels, c, added);
    var levels' := Finished(levels, c, added);
    hide Standing, Stored, Job, Finished, LevelsOk, Outputs;
    if l: nat :| l > d.output && IsFile(levels', l, f) {
      if IsFile(levels, l, f) {
        g, p := f, z;
      } else {
        var m;
        m, g, p := InputFile(levels, c, data, cfg, input, added, f, z);
        InputUnder(levels, c, d, m, g, z.key);
      }
    } else {
      var j: nat :| After(levels'[0], d.inputs, j) && levels'[0][j] == f;
      var i := CameAfter(levels, c, d, added, j);
      if levels[0][i] == f {
        g, p := f, z;
      } else {
        var m;
        m, g, p := InputFile(levels, c, data, cfg, input, added, f, z);
        WithinAfter(levels, c, d, i, m, g);
      }
    }
  }

  lemma WithinAfter(levels: Levels, c: Compaction, d: Compaction, i: nat, m: nat, g: File)
    requires Standing(levels, c) && d.output < |levels| && c.output == 0 == d.output && c.inputs !! d.inputs
    requires After(levels[0], d.inputs, i) && levels[0][i].number in c.inputs
    requires IsFile(levels, m, g) && g.number in c.inputs
    ensures Under(levels, d, g)
  {
    var y :| 0 <= y < |levels[0]| && levels[0][y] == g;
    AllAfter(levels[0], c, d, i, y);
  }

  /** A completion keeps the check for deeper levels of another compaction right. */
  lemma FinishKnows(levels: Levels, c: Compaction, d: Compaction, data: Contents, cfg: I.Config, input: seq<R.Record>,
          added: seq<File>, plan: P.Compaction)
    requires LevelsOk(levels) && Standing(levels, c) && Standing(levels, d) && Compatible(c, d) && Usual(c)
    requires ZeroOrder(levels[0], c, d) && Outputs(levels, c, added) && Stored(levels, data)
    requires c.output < |levels| && d.output < |levels| && Job(levels, c, data, cfg, input, added)
    requires KnowsBelow(levels, d, data, plan)
    ensures KnowsBelow(Finished(levels, c, added), d, data, plan)
  {
    var levels' := Finished(levels, c, added);
    hide LevelsOk, Standing, Stored, Job, NewLevel, Outputs, ZeroOrder, Under, Below;
    forall z | z in RecordsOf(Below(levels', d), data) && d.lo <= z.key <= d.hi ensures !plan.AbsentBeyond(z.key) {
      var f := HeldBelow(levels', d, data, z);
      var g, p := CameFrom(levels, c, d, data, cfg, input, added, f, z);
      UnderIsBelow(levels, d, g);
      RecordIn(Below(levels, d), data);
    }
  }

  lemma HeldBelow(levels: Levels, c: Compaction, data: Contents, z: R.Record) returns (f: File)
    requires c.output < |levels| && z in RecordsOf(Below(levels, c), data)
    ensures Under(levels, c, f) && z in Of(f, data)
  {
    RecordIn(Below(levels, c), data);
    var i :| 0 <= i < |Below(levels, c)| && z in Of(Below(levels, c)[i], data);
    f := Below(levels, c)[i];
    BelowIsUnder(levels, c, f);
  }

  // ---- Flushes and picks

  lemma FlushKnows(levels: Levels, f: File, d: Compaction, data: Contents, plan: P.Compaction)
    requires levels != [] && Standing(levels, d) && !Present(levels, f.number) && d.output < |levels|
    requires KnowsBelow(levels, d, data, plan)
    ensures KnowsBelow(levels[0 := [f] + levels[0]], d, data, plan)
  {
    var levels' := levels[0 := [f] + levels[0]];
    forall z | z in RecordsOf(Below(levels', d), data) && d.lo <= z.key <= d.hi ensures !plan.AbsentBeyond(z.key) {
      var g := HeldBelow(levels', d, data, z);
      FlushUnder(levels, f, d, g);
      UnderIsBelow(levels, d, g);
      RecordIn(Below(levels, d), data);
    }
  }

  lemma FlushUnder(levels: Levels, f: File, d: Compaction, g: File)
    requires levels != [] && Standing(levels, d) && !Present(levels, f.number) && d.output < |levels|
    requires Under(levels[0 := [f] + levels[0]], d, g)
    ensures Under(levels, d, g)
  {
    var levels' := levels[0 := [f] + levels[0]];
    if l: nat :| l > d.output && IsFile(levels', l, g) {
      assert IsFile(levels, l, g);
    } else {
      var j: nat :| After(levels'[0], d.inputs, j) && levels'[0][j] == g;
      var _, h := SomeInput(levels, d);
      hide Standing;
      FlushAfter(levels[0], f, d.inputs, j, h);
    }
  }

  lemma FlushAfter(files: seq<File>, f: File, s: set<nat>, j: nat, h: File)
    requires After([f] + files, s, j) && h in files && h.number in s
    ensures j > 0 && After(files, s, j - 1) && ([f] + files)[j] == files[j - 1]
  {
    var i :| 0 <= i < |files| && files[i] == h;
    assert ([f] + files)[i + 1] == h;
    forall x | 0 <= x < |files| && files[x].number in s ensures x < j - 1 {
      assert ([f] + files)[x + 1] == files[x];
    }
  }

  /** The key ranges of the files, as a compaction finds them in its version. */
  function RangesOf(levels: Levels): seq<seq<P.FileRange>> {
    seq(|levels|, l requires 0 <= l < |levels| =>
      seq(|levels[l]|, i requires 0 <= i < |levels[l]| => P.FileRange(levels[l][i].smallest, levels[l][i].largest)))
  }

  /** `RangeMightExistAfterSortedRun`: for a compaction within level 0 every older file counts. */
  predicate MightExistBelow(levels: Levels, c: Compaction)
    requires c.output < |levels|
  {
    || (c.output == 0 && Ends(levels[0], c.inputs) < |levels[0]|)
    || exists l: nat | c.output < l < |levels| ::
         levels[l] != [] && (c.output == 0 || exists i | 0 <= i < |levels[l]| :: Overlaps(levels[l][i], c.lo, c.hi))
  }

  /** What a picked compaction tells its iterator. */
  predicate PlanOf(levels: Levels, c: Compaction, plan: P.Compaction)
    requires c.output < |levels|
  {
    && plan.outputLevel == c.output && plan.levels == RangesOf(levels)
    && (plan.bottommost <==> !MightExistBelow(levels, c))
  }

  lemma PlanValid(levels: Levels, c: Compaction, plan: P.Compaction)
    requires LevelsOk(levels) && c.output < |levels| && PlanOf(levels, c, plan)
    ensures plan.Valid()
  {
    forall l, i, j | 1 <= l < |levels| && 0 <= i < j < |levels[l]|
      ensures plan.levels[l][i].largest <= plan.levels[l][j].smallest
    {
      assert Sorted(levels[l]);
    }
    forall l, i | 1 <= l < |levels| && 0 <= i < |levels[l]|
      ensures plan.levels[l][i].smallest <= plan.levels[l][i].largest
    {
      assert Sorted(levels[l]);
    }
  }

  /** When a compaction is picked its check for deeper levels is right. */
  lemma StartKnows(levels: Levels, c: Compaction, data: Contents, plan: P.Compaction)
    requires Stored(levels, data) && c.output < |levels| && PlanOf(levels, c, plan)
    ensures KnowsBelow(levels, c, data, plan)
  {
    forall z | z in RecordsOf(Below(levels, c), data) && c.lo <= z.key <= c.hi ensures !plan.AbsentBeyond(z.key) {
      var f := HeldBelow(levels, c, data, z);
      UnderExpected(levels, c, data, plan, f, z);
    }
  }

  lemma UnderExpected(levels: Levels, c: Compaction, data: Contents, plan: P.Compaction, f: File, z: R.Record)
    requires Stored(levels, data) && c.output < |levels| && PlanOf(levels, c, plan)
    requires Under(levels, c, f) && z in Of(f, data) && c.lo <= z.key <= c.hi
    ensures !plan.AbsentBeyond(z.key)
  {
    hide InOrder;
    if l: nat :| l > c.output && IsFile(levels, l, f) {
      InFiles(levels, l, f);
      assert FileHolds(f, data);
      var i :| 0 <= i < |levels[l]| && levels[l][i] == f;
      assert Overlaps(levels[l][i], c.lo, c.hi);
      assert plan.Covers(l, i, z.key);
      assert plan.InLevel(l, z.key);
    } else {
      var j: nat :| After(levels[0], c.inputs, j) && levels[0][j] == f;
    }
  }
}
