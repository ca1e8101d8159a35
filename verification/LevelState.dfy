/** Levels of files, running compactions, and what holds between them. */
module LevelState {
  import opened LevelFiles
  import opened Lookups
  import opened LevelZero

  type Running = map<nat, Compaction>

  predicate IsFile(levels: Levels, l: nat, f: File) {
    l < |levels| && f in levels[l]
  }

  ghost predicate NumbersUnique(levels: Levels) {
    forall l: nat, f, m: nat, g | IsFile(levels, l, f) && IsFile(levels, m, g) && f.number == g.number ::
      l == m && f == g
  }

  ghost predicate LevelsOk(levels: Levels) {
    && levels != [] && RangesOk(levels[0]) && Distinct(levels[0])
    && (forall l | 1 <= l < |levels| :: Sorted(levels[l]))
    && NumbersUnique(levels)
  }

  /** Input files are at the start or output level and within the keys of the compaction. */
  ghost predicate Placed(levels: Levels, c: Compaction) {
    && (forall l: nat, f | IsFile(levels, l, f) && f.number in c.inputs ::
          (l == c.start || l == c.output) && c.lo <= f.smallest && f.largest <= c.hi)
    && (forall n | n in c.inputs :: Present(levels, n))
  }

  ghost predicate Present(levels: Levels, n: nat) {
    exists l: nat, f | IsFile(levels, l, f) :: f.number == n
  }

  /** Files of the output level that are not inputs leave the keys of the compaction free. */
  ghost predicate OutputClear(levels: Levels, c: Compaction) {
    c.output > 0 ==> forall f | IsFile(levels, c.output, f) && f.number !in c.inputs :: !Overlaps(f, c.lo, c.hi)
  }

  /** No key of a start level above 0 is torn apart: files that stay share no key with input files. */
  ghost predicate StartClear(levels: Levels, c: Compaction) {
    c.start > 0 ==>
      forall f, g | IsFile(levels, c.start, f) && f.number in c.inputs && IsFile(levels, c.start, g)
                    && g.number !in c.inputs ::
        !Overlaps(g, f.smallest, f.largest)
  }

  /** A compaction from level 0 passes over empty levels only. */
  ghost predicate GapEmpty(levels: Levels, c: Compaction) {
    c.start == 0 ==> forall l | 0 < l < c.output && l < |levels| :: levels[l] == []
  }

  ghost predicate Standing(levels: Levels, c: Compaction) {
    && c.start <= c.output < |levels| && c.lo <= c.hi && c.inputs != {}
    && Placed(levels, c) && OutputClear(levels, c) && StartClear(levels, c) && GapEmpty(levels, c)
    && ZeroClear(levels[0], c) && ZeroTogether(levels[0], c)
  }

  /** Compactions that may run together. */
  predicate Compatible(c: Compaction, d: Compaction) {
    && c.inputs !! d.inputs
    && (c.output == d.output > 0 ==> c.hi < d.lo || d.hi < c.lo)
    && !(c.start == d.start == 0 && c.output > 0 && d.output > 0)
  }

  ghost predicate RunningOk(levels: Levels, running: Running) {
    && (forall a | a in running :: Standing(levels, running[a]))
    && (forall a, b | a in running && b in running && a != b :: Compatible(running[a], running[b]))
    && (levels != [] ==> forall a, b | a in running && b in running :: ZeroOrder(levels[0], running[a], running[b]))
  }

  predicate Busy(running: Running, n: nat) {
    exists a | a in running :: n in running[a].inputs
  }

  /** A compaction that can start. */
  ghost predicate Ready(levels: Levels, running: Running, c: Compaction) {
    && Standing(levels, c)
    && (forall a | a in running :: Compatible(running[a], c))
    && (forall a | a in running :: ZeroOrder(levels[0], running[a], c) && ZeroOrder(levels[0], c, running[a]))
  }

  lemma RegisterOk(levels: Levels, running: Running, c: Compaction, id: nat)
    requires RunningOk(levels, running) && Ready(levels, running, c) && id !in running
    ensures RunningOk(levels, running[id := c])
  {
    hide Standing, ZeroOrder;
    var running' := running[id := c];
    if levels != [] {
      OwnOrder(levels[0], c);
    }
    forall a, b | a in running' && b in running' && a != b ensures Compatible(running'[a], running'[b]) {
    }
  }

  lemma OwnOrder(files: seq<File>, c: Compaction)
    ensures ZeroOrder(files, c, c)
  {
  }

  /** With no compaction from level 0 running, no file of level 0 is being compacted. */
  lemma ZeroIdle(levels: Levels, running: Running, f: File)
    requires RunningOk(levels, running) && IsFile(levels, 0, f) && forall a | a in running :: running[a].start != 0
    ensures !Busy(running, f.number)
  {
    forall a | a in running ensures f.number !in running[a].inputs {
      assert Standing(levels, running[a]);
    }
  }

  // ---- Changes of the levels

  /** From one version to the next: each level loses the files in `gone` and one level gains new ones. */
  ghost predicate Changed(levels: Levels, levels': Levels, gone: set<nat>, at: nat, added: seq<File>) {
    && |levels'| == |levels|
    && (forall l: nat, f | IsFile(levels', l, f) ::
          (IsFile(levels, l, f) && f.number !in gone) || (l == at && f in added))
    && (forall l: nat, f | IsFile(levels, l, f) && f.number !in gone :: IsFile(levels', l, f))
  }

  /** New files have new numbers. */
  ghost predicate Fresh(levels: Levels, added: seq<File>) {
    && (forall f | f in added :: !Present(levels, f.number))
    && Distinct(added)
  }

  lemma ChangedUnique(levels: Levels, levels': Levels, gone: set<nat>, at: nat, added: seq<File>)
    requires NumbersUnique(levels) && Changed(levels, levels', gone, at, added) && Fresh(levels, added)
    ensures NumbersUnique(levels')
  {
  }

  lemma AddedOther(levels: Levels, added: seq<File>, d: Compaction)
    requires Fresh(levels, added) && Placed(levels, d)
    ensures forall f | f in added :: f.number !in d.inputs
  {
    forall f | f in added ensures f.number !in d.inputs {
      assert f.number in d.inputs ==> Present(levels, f.number);
    }
  }

  /** A compaction whose inputs stay, and whose keys at its output level and start level the new files avoid, stands. */
  lemma ChangedStanding(levels: Levels, levels': Levels, gone: set<nat>, at: nat, added: seq<File>, d: Compaction)
    requires Changed(levels, levels', gone, at, added) && Fresh(levels, added) && Standing(levels, d)
    requires d.inputs !! gone
    requires d.output == at > 0 ==> forall f | f in added :: !Overlaps(f, d.lo, d.hi)
    requires d.start == at > 0 ==>
               forall f, g | f in added && IsFile(levels, at, g) && g.number in d.inputs ::
                 !Overlaps(f, g.smallest, g.largest)
    requires GapEmpty(levels', d) && ZeroClear(levels'[0], d) && ZeroTogether(levels'[0], d)
    ensures Standing(levels', d)
  {
    AddedOther(levels, added, d);
    forall n | n in d.inputs ensures Present(levels', n) {
      assert Present(levels, n);
      var l: nat, f :| IsFile(levels, l, f) && f.number == n;
      assert IsFile(levels', l, f);
    }
    assert Placed(levels', d);
    assert OutputClear(levels', d);
    assert StartClear(levels', d);
  }

  // ---- Completion

  /** The output files go where the files that stay leave room. */
  function Insert(files: seq<File>, added: seq<File>, hi: Key): seq<File> {
    if files == [] || files[0].smallest > hi then added + files
    else [files[0]] + Insert(files[1..], added, hi)
  }

  lemma {:induction false} InsertMembers(files: seq<File>, added: seq<File>, hi: Key)
    ensures forall f :: f in Insert(files, added, hi) <==> f in files || f in added
    decreases |files|
  {
    if files == [] || files[0].smallest > hi {
    } else {
      InsertMembers(files[1..], added, hi);
      assert files == [files[0]] + files[1..];
    }
  }

  lemma {:induction false} InsertSorted(files: seq<File>, added: seq<File>, lo: Key, hi: Key)
    requires Sorted(files) && Sorted(added) && (forall f | f in added :: lo <= f.smallest && f.largest <= hi)
    requires forall f | f in files :: !Overlaps(f, lo, hi)
    ensures Sorted(Insert(files, added, hi))
    decreases |files|
  {
    forall i | 0 <= i < |added| ensures lo <= added[i].smallest && added[i].largest <= hi {
      assert added[i] in added;
    }
    if files == [] || files[0].smallest > hi {
      var r := added + files;
      assert forall j | 0 <= j < |files| :: files[0].smallest <= files[j].smallest;
    } else {
      var rest := files[1..];
      assert forall i | 0 <= i < |rest| :: rest[i] == files[i + 1];
      InsertSorted(rest, added, lo, hi);
      InsertMembers(rest, added, hi);
      var r := Insert(rest, added, hi);
      assert files[0] in files;
      forall i | 0 <= i < |r| ensures files[0].largest <= r[i].smallest {
        assert r[i] in r;
      }
    }
  }

  function NewLevel(files: seq<File>, c: Compaction, l: nat, added: seq<File>): seq<File> {
    if l == 0 then Replace(files, c.inputs, if c.output == 0 then added else [])
    else if l == c.output then Insert(Select(files, c.inputs, false), added, c.hi)
    else Select(files, c.inputs, false)
  }

  /** The levels once a compaction is done. Level 0 is in the order of sequence numbers, so files that were merged
      within it give their place to the outputs. */
  function Finished(levels: Levels, c: Compaction, added: seq<File>): Levels {
    seq(|levels|, l requires 0 <= l < |levels| => NewLevel(levels[l], c, l, added))
  }

  lemma NewLevelMembers(files: seq<File>, c: Compaction, l: nat, added: seq<File>)
    requires l == c.output == 0 ==> Touches(files, c.inputs)
    ensures forall f ::
              f in NewLevel(files, c, l, added) <==>
                (f in files && f.number !in c.inputs) || (l == c.output && f in added)
  {
    var stay := Select(files, c.inputs, false);
    SelectIn(files, c.inputs, false);
    if l == 0 {
      ReplaceMembers(files, c.inputs, if c.output == 0 then added else []);
    } else {
      InsertMembers(stay, added, c.hi);
    }
  }

  lemma SomeInput(levels: Levels, c: Compaction) returns (l: nat, f: File)
    requires Standing(levels, c)
    ensures (l == c.start || l == c.output) && f in levels[l] && f.number in c.inputs
  {
    var n :| n in c.inputs;
    assert Present(levels, n);
    l, f :| IsFile(levels, l, f) && f.number == n;
  }

  lemma FinishedChanged(levels: Levels, c: Compaction, added: seq<File>)
    requires Standing(levels, c)
    ensures Changed(levels, Finished(levels, c, added), c.inputs, c.output, added)
  {
    if c.output == 0 {
      var _, f := SomeInput(levels, c);
      assert f in levels[0];
    }
    hide NewLevel;
    var levels' := Finished(levels, c, added);
    forall l: nat | l < |levels|
      ensures forall f ::
                f in levels'[l] <==> (f in levels[l] && f.number !in c.inputs) || (l == c.output && f in added)
    {
      NewLevelMembers(levels[l], c, l, added);
    }
  }

  /** What a compaction writes: new files within its keys. */
  ghost predicate Outputs(levels: Levels, c: Compaction, added: seq<File>) {
    Sorted(added) && Fresh(levels, added) && forall f | f in added :: c.lo <= f.smallest && f.largest <= c.hi
  }

  lemma FinishedSorted(levels: Levels, c: Compaction, added: seq<File>, l: nat)
    requires LevelsOk(levels) && Standing(levels, c) && Outputs(levels, c, added) && l < |levels|
    ensures l == 0 ==> RangesOk(NewLevel(levels[l], c, l, added)) && Distinct(NewLevel(levels[l], c, l, added))
    ensures l > 0 ==> Sorted(NewLevel(levels[l], c, l, added))
  {
    var files := levels[l];
    if l == 0 {
      FinishedZero(levels, c, added);
    } else {
      SelectIn(files, c.inputs, false);
      SelectSorted(files, c.inputs, false);
      if l == c.output {
        assert forall f | f in Select(files, c.inputs, false) :: IsFile(levels, l, f);
        InsertSorted(Select(files, c.inputs, false), added, c.lo, c.hi);
      }
    }
  }

  lemma FinishedZero(levels: Levels, c: Compaction, added: seq<File>)
    requires LevelsOk(levels) && Standing(levels, c) && Outputs(levels, c, added)
    ensures RangesOk(NewLevel(levels[0], c, 0, added)) && Distinct(NewLevel(levels[0], c, 0, added))
  {
    var files, new' := levels[0], if c.output == 0 then added else [];
    if c.output == 0 {
      var _, f := SomeInput(levels, c);
      assert f in levels[0];
    }
    NewLevelMembers(files, c, 0, added);
    RangesByMember(files, added, NewLevel(files, c, 0, added));
    forall f, g | f in files && g in added ensures f.number != g.number {
      assert IsFile(levels, 0, f);
    }
    ReplaceDistinct(files, c.inputs, new');
  }

  lemma RangesByMember(a: seq<File>, b: seq<File>, r: seq<File>)
    requires RangesOk(a) && RangesOk(b) && forall f | f in r :: f in a || f in b
    ensures RangesOk(r)
  {
    forall i | 0 <= i < |r| ensures r[i].smallest <= r[i].largest {
      assert r[i] in r;
    }
  }

  /** A compaction that finishes leaves the levels in order and disturbs no other compaction. */
  lemma FinishOk(levels: Levels, running: Running, id: nat, added: seq<File>)
    requires LevelsOk(levels) && RunningOk(levels, running) && id in running && Outputs(levels, running[id], added)
    ensures LevelsOk(Finished(levels, running[id], added))
    ensures RunningOk(Finished(levels, running[id], added), running - {id})
  {
    hide Standing, NewLevel, Changed, ZeroOrder;
    var c := running[id];
    var levels' := Finished(levels, c, added);
    FinishedChanged(levels, c, added);
    ChangedUnique(levels, levels', c.inputs, c.output, added);
    forall l: nat | l < |levels|
      ensures (l == 0 ==> RangesOk(levels'[l]) && Distinct(levels'[l])) && (l > 0 ==> Sorted(levels'[l]))
    {
      FinishedSorted(levels, c, added, l);
    }
    forall a | a in running - {id} ensures Standing(levels', running[a]) {
      OtherStands(levels, c, running[a], added);
    }
    forall a, b | a in running - {id} && b in running - {id} ensures ZeroOrder(levels'[0], running[a], running[b]) {
      OtherOrder(levels, c, running[a], running[b], added);
    }
  }

  lemma OtherOrder(levels: Levels, c: Compaction, a: Compaction, b: Compaction, added: seq<File>)
    requires levels != [] && Standing(levels, a) && Standing(levels, b) && c.inputs !! a.inputs && c.inputs !! b.inputs
    requires Fresh(levels, added) && ZeroOrder(levels[0], a, b)
    ensures ZeroOrder(Finished(levels, c, added)[0], a, b)
  {
    AddedOther(levels, added, a);
    AddedOther(levels, added, b);
    hide Standing, ZeroOrder, Traces, Replace;
    var new' := if c.output == 0 then added else [];
    var at := ReplaceTraces(levels[0], c.inputs, new');
    TracedOrder(levels[0], Replace(levels[0], c.inputs, new'), c.inputs, new', at, a, b);
  }

  lemma OtherStands(levels: Levels, c: Compaction, d: Compaction, added: seq<File>)
    requires Standing(levels, c) && Standing(levels, d) && Compatible(c, d) && Outputs(levels, c, added)
    requires ZeroOrder(levels[0], d, c)
    ensures Standing(Finished(levels, c, added), d)
  {
    var levels' := Finished(levels, c, added);
    if d.start == c.output > 0 {
      forall f, g | f in added && IsFile(levels, c.output, g) && g.number in d.inputs
        ensures !Overlaps(f, g.smallest, g.largest)
      {
        assert g.number !in c.inputs;
        assert !Overlaps(g, c.lo, c.hi);
      }
    }
    OtherZero(levels, c, d, added);
    OtherGap(levels, c, d, added);
    hide Standing;
    FinishedChanged(levels, c, added);
    ChangedStanding(levels, levels', c.inputs, c.output, added, d);
  }

  lemma OtherZero(levels: Levels, c: Compaction, d: Compaction, added: seq<File>)
    requires Standing(levels, c) && Standing(levels, d) && Compatible(c, d) && Outputs(levels, c, added)
    requires ZeroOrder(levels[0], d, c)
    ensures ZeroClear(Finished(levels, c, added)[0], d) && ZeroTogether(Finished(levels, c, added)[0], d)
  {
    AddedOther(levels, added, d);
    hide Traces, Replace, Placed, OutputClear, StartClear;
    var new' := if c.output == 0 then added else [];
    var at := ReplaceTraces(levels[0], c.inputs, new');
    TracedClear(levels[0], Replace(levels[0], c.inputs, new'), c.inputs, new', at, d);
    TracedTogether(levels[0], Replace(levels[0], c.inputs, new'), c.inputs, new', at, d);
  }

  lemma OtherGap(levels: Levels, c: Compaction, d: Compaction, added: seq<File>)
    requires Standing(levels, c) && Standing(levels, d) && Compatible(c, d)
    ensures GapEmpty(Finished(levels, c, added), d)
  {
    var m, f := SomeInput(levels, c);
    if d.start == 0 {
      forall l | 0 < l < d.output ensures Finished(levels, c, added)[l] == [] {
        assert levels[l] == [] && l != c.output;
      }
    }
  }

  lemma FlushOk(levels: Levels, running: Running, f: File)
    requires LevelsOk(levels) && RunningOk(levels, running) && f.smallest <= f.largest && !Present(levels, f.number)
    ensures LevelsOk(levels[0 := [f] + levels[0]]) && RunningOk(levels[0 := [f] + levels[0]], running)
  {
    hide Standing, ZeroOrder;
    var levels' := levels[0 := [f] + levels[0]];
    assert Changed(levels, levels', {}, 0, [f]);
    ChangedUnique(levels, levels', {}, 0, [f]);
    forall g | g in levels[0] ensures g.number != f.number {
      assert IsFile(levels, 0, g);
    }
    JoinDistinct([f], levels[0]);
    forall a | a in running ensures Standing(levels', running[a]) {
      FlushStands(levels, f, running[a]);
    }
    forall a, b | a in running && b in running ensures ZeroOrder(levels'[0], running[a], running[b]) {
      NewFileOther(levels, f, running[a]);
      FlushedOrder(levels[0], f, running[a], running[b]);
    }
  }

  lemma NewFileOther(levels: Levels, f: File, d: Compaction)
    requires Standing(levels, d) && !Present(levels, f.number)
    ensures f.number !in d.inputs
  {
  }

  lemma FlushStands(levels: Levels, f: File, d: Compaction)
    requires levels != [] && Standing(levels, d) && !Present(levels, f.number)
    ensures Standing(levels[0 := [f] + levels[0]], d)
  {
    var levels' := levels[0 := [f] + levels[0]];
    NewFileOther(levels, f, d);
    FlushedZero(levels[0], f, d);
    assert GapEmpty(levels', d);
    hide Standing, ZeroClear, ZeroTogether;
    assert Changed(levels, levels', {}, 0, [f]);
    ChangedStanding(levels, levels', {}, 0, [f], d);
  }
}
