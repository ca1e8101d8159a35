/** Compactions that take files of level 0, and how its order, newest file first, holds while they run. */
module LevelZero {
  import opened LevelFiles
  import opened Lookups

  /** A compaction: its input files, from its start level and its output level, lie within keys `lo` to `hi`. */
  datatype Compaction = Compaction(start: nat, output: nat, inputs: set<nat>, lo: Key, hi: Key)

  predicate Distinct(files: seq<File>) {
    forall i, j | 0 <= i < j < |files| :: files[i].number != files[j].number
  }

  /** A compaction from level 0 down takes along every older file of level 0 that shares a key with an input. */
  ghost predicate ZeroClear(files: seq<File>, c: Compaction) {
    c.start == 0 < c.output ==>
      forall i, j | 0 <= i < j < |files| && files[i].number in c.inputs && files[j].number !in c.inputs ::
        !Overlaps(files[j], files[i].smallest, files[i].largest)
  }

  /** The inputs of a compaction within level 0 lie next to each other. */
  ghost predicate ZeroTogether(files: seq<File>, c: Compaction) {
    c.output == 0 ==> Together(files, c.inputs)
  }

  ghost predicate Together(files: seq<File>, s: set<nat>) {
    forall i, j, k | 0 <= i < j < k < |files| && files[i].number in s && files[k].number in s :: files[j].number in s
  }

  /** An input of compaction `c`, from level 0 down, that is newer than an input of `d`, within level 0, has no key
      between the keys of `d`. */
  ghost predicate ZeroOrder(files: seq<File>, c: Compaction, d: Compaction) {
    c.start == 0 < c.output && d.output == 0 ==>
      forall i, j | 0 <= i < j < |files| && files[i].number in c.inputs && files[j].number in d.inputs ::
        !Overlaps(files[i], d.lo, d.hi)
  }

  // ---- Files go and others take their place

  /** Level 0 without the files in `gone`; the new files take the place of the newest one that went. */
  function Replace(files: seq<File>, gone: set<nat>, added: seq<File>): seq<File> {
    if files == [] then []
    else if files[0].number in gone then added + Select(files[1..], gone, false)
    else [files[0]] + Replace(files[1..], gone, added)
  }

  ghost predicate Touches(files: seq<File>, gone: set<nat>) {
    exists f :: f in files && f.number in gone
  }

  lemma {:induction false} ReplaceMembers(files: seq<File>, gone: set<nat>, added: seq<File>)
    requires Touches(files, gone) || added == []
    ensures forall f :: f in Replace(files, gone, added) <==> (f in files && f.number !in gone) || f in added
    decreases |files|
  {
    if files != [] {
      assert files == [files[0]] + files[1..];
      if files[0].number in gone {
        SelectIn(files[1..], gone, false);
      } else {
        ReplaceMembers(files[1..], gone, added);
      }
    }
  }

  lemma {:induction false} ReplaceNothing(files: seq<File>, gone: set<nat>)
    ensures Replace(files, gone, []) == Select(files, gone, false)
    decreases |files|
  {
    if files != [] {
      ReplaceNothing(files[1..], gone);
    }
  }

  lemma {:induction false} ReplaceDistinct(files: seq<File>, gone: set<nat>, added: seq<File>)
    requires Distinct(files) && Distinct(added) && (Touches(files, gone) || added == [])
    requires forall f, g | f in files && g in added :: f.number != g.number
    ensures Distinct(Replace(files, gone, added))
    decreases |files|
  {
    if files != [] {
      var rest := files[1..];
      assert files == [files[0]] + rest;
      if files[0].number in gone {
        SelectDistinct(rest, gone);
        SelectIn(rest, gone, false);
        JoinDistinct(added, Select(rest, gone, false));
      } else {
        ReplaceDistinct(rest, gone, added);
        ReplaceMembers(rest, gone, added);
        forall f, g | f in [files[0]] && g in Replace(rest, gone, added) ensures f.number != g.number {
          HeadDistinct(files, g);
        }
        JoinDistinct([files[0]], Replace(rest, gone, added));
      }
    }
  }

  lemma HeadDistinct(files: seq<File>, g: File)
    requires files != [] && Distinct(files)
    ensures g in files[1..] ==> files[0].number != g.number
  {
  }

  lemma JoinDistinct(a: seq<File>, b: seq<File>)
    requires Distinct(a) && Distinct(b) && forall f, g | f in a && g in b :: f.number != g.number
    ensures Distinct(a + b)
  {
  }

  lemma {:induction false} SelectDistinct(files: seq<File>, gone: set<nat>)
    requires Distinct(files)
    ensures Distinct(Select(files, gone, false))
    decreases |files|
  {
    if files != [] {
      var rest := files[1..];
      SelectDistinct(rest, gone);
      SelectIn(rest, gone, false);
      forall f, g | f in [files[0]] && g in Select(rest, gone, false) ensures f.number != g.number {
        HeadDistinct(files, g);
      }
      JoinDistinct([files[0]], Select(rest, gone, false));
      assert [] + Select(rest, gone, false) == Select(rest, gone, false);
    }
  }

  // ---- Where files come from

  /** Position `at[x]` is where file `x` was, or where a file that it replaces was. */
  ghost predicate Traces(files: seq<File>, files': seq<File>, gone: set<nat>, added: seq<File>, at: seq<nat>) {
    && |at| == |files'|
    && (forall x | 0 <= x < |at| ::
          at[x] < |files| && if files[at[x]].number in gone then files'[x] in added else files'[x] == files[at[x]])
    && (forall x, y | 0 <= x < y < |at| :: at[x] < at[y] || (at[x] == at[y] && files[at[x]].number in gone))
  }

  function Later(at: seq<nat>): seq<nat> {
    seq(|at|, x requires 0 <= x < |at| => at[x] + 1)
  }

  lemma LaterTraces(files: seq<File>, files': seq<File>, gone: set<nat>, added: seq<File>, at: seq<nat>)
    requires files != [] && Traces(files[1..], files', gone, added, at)
    ensures Traces(files, files', gone, added, Later(at))
    ensures files[0].number !in gone ==> Traces(files, [files[0]] + files', gone, added, [0] + Later(at))
  {
  }

  lemma {:induction false} SelectTraces(files: seq<File>, gone: set<nat>, added: seq<File>) returns (at: seq<nat>)
    ensures Traces(files, Select(files, gone, false), gone, added, at)
    decreases |files|
  {
    at := [];
    if files != [] {
      var rest := SelectTraces(files[1..], gone, added);
      LaterTraces(files, Select(files[1..], gone, false), gone, added, rest);
      assert [] + Select(files[1..], gone, false) == Select(files[1..], gone, false);
      at := if files[0].number in gone then Later(rest) else [0] + Later(rest);
    }
  }

  lemma {:induction false} ReplaceTraces(files: seq<File>, gone: set<nat>, added: seq<File>) returns (at: seq<nat>)
    ensures Traces(files, Replace(files, gone, added), gone, added, at)
    decreases |files|
  {
    at := [];
    if files != [] {
      if files[0].number in gone {
        var rest := SelectTraces(files[1..], gone, added);
        LaterTraces(files, Select(files[1..], gone, false), gone, added, rest);
        at := seq(|added|, _ => 0) + Later(rest);
        FrontTraces(files, Select(files[1..], gone, false), gone, added, Later(rest));
      } else {
        var rest := ReplaceTraces(files[1..], gone, added);
        LaterTraces(files, Replace(files[1..], gone, added), gone, added, rest);
        at := [0] + Later(rest);
      }
    }
  }

  lemma FrontTraces(files: seq<File>, files': seq<File>, gone: set<nat>, added: seq<File>, at: seq<nat>)
    requires files != [] && files[0].number in gone && Traces(files, files', gone, added, at)
    requires forall x | 0 <= x < |at| :: at[x] > 0
    ensures Traces(files, added + files', gone, added, seq(|added|, _ => 0) + at)
  {
  }

  // ---- What holds of other compactions

  lemma TracedClear(files: seq<File>, files': seq<File>, gone: set<nat>, added: seq<File>, at: seq<nat>, c: Compaction)
    requires Traces(files, files', gone, added, at) && ZeroClear(files, c) && c.inputs !! gone
    requires forall f | f in added :: f.number !in c.inputs
    requires c.start == 0 < c.output ==>
               forall i, j, f | 0 <= i < j < |files| && files[i].number in c.inputs && files[j].number in gone
                                && f in added ::
                 !Overlaps(f, files[i].smallest, files[i].largest)
    ensures ZeroClear(files', c)
  {
    if c.start == 0 < c.output {
      forall x, y | 0 <= x < y < |files'| && files'[x].number in c.inputs && files'[y].number !in c.inputs
        ensures !Overlaps(files'[y], files'[x].smallest, files'[x].largest)
      {
        assert files'[x] == files[at[x]] && at[x] < at[y];
      }
    }
  }

  lemma TracedTogether(files: seq<File>, files': seq<File>, gone: set<nat>, added: seq<File>, at: seq<nat>,
          c: Compaction)
    requires Traces(files, files', gone, added, at) && ZeroTogether(files, c) && c.inputs !! gone
    requires forall f | f in added :: f.number !in c.inputs
    ensures ZeroTogether(files', c)
  {
    if c.output == 0 {
      forall x, y, z | 0 <= x < y < z < |files'| && files'[x].number in c.inputs && files'[z].number in c.inputs
        ensures files'[y].number in c.inputs
      {
        assert files'[x] == files[at[x]] && files'[z] == files[at[z]];
        assert at[x] < at[y] < at[z];
      }
    }
  }

  lemma TracedOrder(files: seq<File>, files': seq<File>, gone: set<nat>, added: seq<File>, at: seq<nat>, c: Compaction,
          d: Compaction)
    requires Traces(files, files', gone, added, at) && ZeroOrder(files, c, d) && c.inputs !! gone && d.inputs !! gone
    requires forall f | f in added :: f.number !in c.inputs && f.number !in d.inputs
    ensures ZeroOrder(files', c, d)
  {
    if c.start == 0 < c.output && d.output == 0 {
      forall x, y | 0 <= x < y < |files'| && files'[x].number in c.inputs && files'[y].number in d.inputs
        ensures !Overlaps(files'[x], d.lo, d.hi)
      {
        assert files'[x] == files[at[x]] && files'[y] == files[at[y]] && at[x] < at[y];
      }
    }
  }

  /** A new file comes first. */
  lemma FlushedZero(files: seq<File>, f: File, c: Compaction)
    requires ZeroClear(files, c) && ZeroTogether(files, c) && f.number !in c.inputs
    ensures ZeroClear([f] + files, c) && ZeroTogether([f] + files, c)
  {
    assert forall x | 0 < x < |[f] + files| :: ([f] + files)[x] == files[x - 1];
  }

  lemma FlushedOrder(files: seq<File>, f: File, c: Compaction, d: Compaction)
    requires ZeroOrder(files, c, d) && f.number !in c.inputs
    ensures ZeroOrder([f] + files, c, d)
  {
    assert forall x | 0 < x < |[f] + files| :: ([f] + files)[x] == files[x - 1];
  }
}
