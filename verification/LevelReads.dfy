/** A level-style compaction that runs the iterator over its input files changes no read at any snapshot over all
    levels. */
module LevelReads {
  import opened LevelFiles
  import opened Lookups
  import opened LevelZero
  import opened LevelState
  import opened LevelMeaning
  import opened LevelRecords
  import opened LevelFlat
  import opened LevelJobs
  import opened LevelOrder
  import R = Records
  import I = IteratorSpec
  import Q = IteratorGuards
  import Z = IteratorZero

  /** The versions of a key that stay above the compaction. */
  ghost function Staying(levels: Levels, c: Compaction, data: Contents, k: Key): seq<R.Record>
    requires c.output < |levels|
  {
    R.VersionsOf(RecordsOf(Select(Upper(levels, c), c.inputs, false), data), k)
  }

  lemma {:induction false} SelectBoth(files: seq<File>, s: set<nat>, data: Contents, r: R.Record)
    ensures r in RecordsOf(files, data) <==>
            r in RecordsOf(Select(files, s, false), data) || r in RecordsOf(Select(files, s, true), data)
    decreases |files|
  {
    if files != [] {
      SelectBoth(files[1..], s, data, r);
      var chosen := files[0].number in s;
      var some := Select(files[1..], s, chosen);
      assert Select(files, s, chosen) == [files[0]] + some && ([files[0]] + some)[1..] == some;
      assert Select(files, s, !chosen) == Select(files[1..], s, !chosen);
      assert RecordsOf([files[0]] + some, data) == Of(files[0], data) + RecordsOf(some, data);
    }
  }

  /** Above, what stays is newer than the inputs. */
  lemma UpperVersions(levels: Levels, c: Compaction, data: Contents, k: Key)
    requires Standing(levels, c) && GapClear(levels, c) && Stored(levels, data) && c.output < |levels|
    ensures R.VersionsOf(RecordsOf(Upper(levels, c), data), k) ==
            Staying(levels, c, data, k) + R.VersionsOf(RecordsOf(Inputs(levels, c), data), k)
  {
    hide Standing, GapClear, Stored, Select, RecordsOf, Upper, R.VersionsOf;
    var u := Upper(levels, c);
    var stay, ins := Select(u, c.inputs, false), Inputs(levels, c);
    PartsStored(levels, c, data);
    SelectIn(u, c.inputs, false);
    SelectInOrder(u, c.inputs, false, data);
    HistoryOf(u, data, k);
    HistoryOf(stay, data, k);
    HistoryOf(ins, data, k);
    var all, a, b := R.VersionsOf(RecordsOf(u, data), k), Staying(levels, c, data, k),
      R.VersionsOf(RecordsOf(ins, data), k);
    forall r, q | r in a && q in b ensures r.seqno > q.seqno {
      VersionIn(RecordsOf(stay, data), k, r);
      VersionIn(RecordsOf(ins, data), k, q);
      StaysNewer(levels, c, data, r, q);
    }
    HistoryJoin(a, b, k);
    forall r ensures r in all <==> r in a + b {
      SelectBoth(u, c.inputs, data, r);
      VersionIn(RecordsOf(u, data), k, r);
      VersionIn(RecordsOf(stay, data), k, r);
      VersionIn(RecordsOf(ins, data), k, r);
    }
    SameHistory(all, a + b, k);
  }

  lemma ThreeVersions(a: seq<File>, added: seq<File>, b: seq<File>, z: seq<File>, data: Contents, k: Key)
    requires R.VersionsOf(RecordsOf(added, data), k) == [] || R.VersionsOf(RecordsOf(b, data), k) == []
    ensures R.VersionsOf(RecordsOf(a + added + b + z, data), k) ==
            R.VersionsOf(RecordsOf(a + b, data), k) + R.VersionsOf(RecordsOf(added, data), k)
            + R.VersionsOf(RecordsOf(z, data), k)
  {
    hide R.VersionsOf, RecordsOf;
    RecordsJoin(a + added + b, z, data);
    RecordsJoin(a + added, b, data);
    RecordsJoin(a, added, data);
    RecordsJoin(a, b, data);
    R.VersionsOfConcat(RecordsOf(a + added + b, data), RecordsOf(z, data), k);
    R.VersionsOfConcat(RecordsOf(a + added, data), RecordsOf(b, data), k);
    R.VersionsOfConcat(RecordsOf(a, data), RecordsOf(added, data), k);
    R.VersionsOfConcat(RecordsOf(a, data), RecordsOf(b, data), k);
  }

  /** Files that leave the keys of the compaction free have no version that it writes. */
  lemma EitherNone(levels: Levels, c: Compaction, added: seq<File>, b: seq<File>, data: Contents, k: Key)
    requires Outputs(levels, c, added) && AllHold(added, data) && AllHold(b, data)
    requires forall f | f in b :: !Overlaps(f, c.lo, c.hi)
    ensures R.VersionsOf(RecordsOf(added, data), k) == [] || R.VersionsOf(RecordsOf(b, data), k) == []
  {
    hide R.VersionsOf, RecordsOf;
    var x, y := R.VersionsOf(RecordsOf(added, data), k), R.VersionsOf(RecordsOf(b, data), k);
    if x != [] && y != [] {
      var f := VersionFile(added, data, k);
      var h := VersionFile(b, data, k);
    }
  }

  lemma VersionFile(files: seq<File>, data: Contents, k: Key) returns (f: File)
    requires AllHold(files, data) && R.VersionsOf(RecordsOf(files, data), k) != []
    ensures f in files && f.smallest <= k <= f.largest
  {
    hide RecordsOf;
    var x := R.VersionIndex(RecordsOf(files, data), k, 0);
    RecordIn(files, data);
    var r := RecordsOf(files, data)[x];
    assert r in RecordsOf(files, data);
    var i :| 0 <= i < |files| && r in Of(files[i], data);
    f := files[i];
    assert FileHolds(f, data);
  }

  /** A completion puts the output versions of each key in the place of its input versions. */
  lemma FinishVersions(levels: Levels, c: Compaction, data: Contents, cfg: I.Config, input: seq<R.Record>,
          added: seq<File>, k: Key)
    requires Standing(levels, c) && GapClear(levels, c) && Stored(levels, data) && c.output < |levels|
    requires Outputs(levels, c, added) && Job(levels, c, data, cfg, input, added)
    ensures R.VersionsOf(RecordsOf(FilesOf(levels), data), k) ==
            Staying(levels, c, data, k) + R.VersionsOf(input, k) + Deeper(levels, c, data, k)
    ensures R.VersionsOf(RecordsOf(FilesOf(Finished(levels, c, added)), data), k) ==
            Staying(levels, c, data, k) + R.VersionsOf(I.Compact(cfg, input), k) + Deeper(levels, c, data, k)
  {
    hide Standing, GapClear, Stored, Outputs, IsMerge, KnowsBelow, Finished, Select, RecordsOf, Upper, Below,
         R.VersionsOf;
    hide I.Compact;
    var u, z := Upper(levels, c), Below(levels, c);
    PartsStored(levels, c, data);
    UpperBelow(levels, c);
    RecordsJoin(u, z, data);
    R.VersionsOfConcat(RecordsOf(u, data), RecordsOf(z, data), k);
    UpperVersions(levels, c, data, k);
    MergeVersions(input, Inputs(levels, c), data, k);
    var a, b := FinishedFiles(levels, c, added);
    SelectIn(u, c.inputs, false);
    HoldSome(Select(u, c.inputs, false), a, b, data);
    EitherNone(levels, c, added, b, data, k);
    ThreeVersions(a, added, b, z, data, k);
  }

  /** A read looks at the versions above first. */
  lemma ReadAbove(a: seq<R.Record>, g: seq<R.Record>, d: seq<R.Record>, k: Key, s: nat)
    ensures R.Read(a + g + d, [], k, s) ==
            if R.Newest(a, k, s).Some? then R.Seen(R.Newest(a, k, s).value) else R.Read(g, d, k, s)
  {
    NewestJoin(a + g, d, k, s);
    NewestJoin(a, g, k, s);
  }

  /** No read at a live snapshot, old or new, or at the tip changes when a compaction completes whose input is safe for
      the key. */
  lemma FinishKeepsReads(levels: Levels, running: Running, id: nat, added: seq<File>, data: Contents, cfg: I.Config,
          input: seq<R.Record>, k: Key, s: nat)
    requires LevelsOk(levels) && RunningOk(levels, running) && id in running && GapClear(levels, running[id])
    requires running[id].output < |levels| && Outputs(levels, running[id], added)
    requires Stored(levels, data) && Job(levels, running[id], data, cfg, input, added) && Reader(cfg, input, s)
    requires Z.Safe(cfg, R.VersionsOf(input, k), Deeper(levels, running[id], data, k), Q.EnoughFor(cfg, input, k))
    ensures ReadAt(Finished(levels, running[id], added), data, k, s) == ReadAt(levels, data, k, s)
  {
    hide Z.Safe, Standing, Stored, Outputs, GapClear, RecordsOf, ReadAt, R.VersionsOf, R.Read, I.Compact, Finished;
    var c := running[id];
    var levels', stay := Finished(levels, c, added), Staying(levels, c, data, k);
    var g, out, d := R.VersionsOf(input, k), R.VersionsOf(I.Compact(cfg, input), k), Deeper(levels, c, data, k);
    ReadIsRead(levels, data, k, s);
    ReadIsRead(levels', data, k, s);
    FinishVersions(levels, c, data, cfg, input, added, k);
    KeptBelow(levels, c, data, cfg, input, added, k, s);
    var below := RecordsOf(Below(levels, c), data);
    R.ReadOfVersions(input, below, k, s);
    R.ReadOfVersions(I.Compact(cfg, input), below, k, s);
    R.ReadOfVersions(RecordsOf(FilesOf(levels), data), [], k, s);
    R.ReadOfVersions(RecordsOf(FilesOf(levels'), data), [], k, s);
    R.VersionsOfNone([], k);
    ReadAbove(stay, g, d, k, s);
    ReadAbove(stay, out, d, k, s);
  }
}
