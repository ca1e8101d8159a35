/** Completions and flushes keep newer records in front of older ones, and keep the check for deeper levels of every
    running compaction right. */
module LevelOrder {
  import opened LevelFiles
  import opened Lookups
  import opened LevelZero
  import opened LevelState
  import opened LevelMeaning
  import opened LevelRecords
  import opened LevelFlat
  import opened LevelJobs
  import R = Records
  import I = IteratorSpec
  import O = IteratorOrder

  // ---- Order

  lemma SelectedAt(files: seq<File>, s: set<nat>, chosen: bool, data: Contents, r: R.Record) returns (i: nat)
    requires r in RecordsOf(Select(files, s, chosen), data)
    ensures i < |files| && (files[i].number in s <==> chosen) && r in Of(files[i], data)
  {
    var some := Select(files, s, chosen);
    RecordIn(some, data);
    var j :| 0 <= j < |some| && r in Of(some[j], data);
    SelectIn(files, s, chosen);
    assert some[j] in some;
    i :| 0 <= i < |files| && files[i] == some[j];
  }

  lemma {:induction false} NewestSome(recs: seq<R.Record>, r: R.Record, s: nat)
    requires r in recs && r.seqno <= s
    ensures R.Newest(recs, r.key, s).Some?
    decreases |recs|
  {
    if recs[0] != r {
      NewestSome(recs[1..], r, s);
    }
  }

  /** What stays above and has a key of the inputs is newer than they are. */
  lemma StaysNewer(levels: Levels, c: Compaction, data: Contents, r: R.Record, p: R.Record)
    requires Standing(levels, c) && GapClear(levels, c) && Stored(levels, data) && c.output < |levels|
    requires r in RecordsOf(Select(Upper(levels, c), c.inputs, false), data)
    requires p in RecordsOf(Inputs(levels, c), data) && r.key == p.key
    ensures r.seqno > p.seqno
  {
    hide Standing, GapClear, Stored, Select, At, Has, FlatSinks, Upper, RecordsOf;
    var u, found := Upper(levels, c), At(data, R.MAX_SEQ);
    var i := SelectedAt(u, c.inputs, false, data, r);
    var j := SelectedAt(u, c.inputs, true, data, p);
    PartsStored(levels, c, data);
    HoldsAt(u, data, i, r);
    HoldsAt(u, data, j, p);
    StoredHolds(levels, data);
    DataAt(levels, data, R.MAX_SEQ);
    UpperSinks(levels, c, found, r.key);
    SinksAt(u, c.inputs, found, r.key, j, i);
  }

  lemma SinksAt(files: seq<File>, s: set<nat>, data: Data, k: Key, j: nat, i: nat)
    requires FlatSinks(files, s, data, k) && i < |files| && j < |files|
    requires files[j].number in s && Has(files[j], data, k) && files[i].number !in s && Has(files[i], data, k)
    ensures i < j
  {
  }

  lemma HoldsAt(files: seq<File>, data: Contents, i: nat, r: R.Record)
    requires i < |files| && r in Of(files[i], data) && forall q | q in RecordsOf(files, data) :: q.seqno <= R.MAX_SEQ
    ensures Has(files[i], At(data, R.MAX_SEQ), r.key)
  {
    RecordIn(files, data);
    NewestSome(Of(files[i], data), r, R.MAX_SEQ);
    ShownIs(files[i], data, r.key, R.MAX_SEQ);
  }

  /** An output record, as far as the order of files goes: it has the key of an input record and is newer than all
      below it. */
  lemma OutputPlace(levels: Levels, c: Compaction, data: Contents, cfg: I.Config, input: seq<R.Record>,
          added: seq<File>, q: R.Record)
    returns (p: R.Record)
    requires Standing(levels, c) && Stored(levels, data) && c.output < |levels|
    requires Job(levels, c, data, cfg, input, added) && q in RecordsOf(added, data)
    ensures p in RecordsOf(Inputs(levels, c), data) && p.key == q.key && q.seqno <= p.seqno <= R.MAX_SEQ
    ensures p.kind == q.kind && c.lo <= q.key <= c.hi && (q.seqno != p.seqno ==> cfg.Zeroes(p))
    ensures forall z | z in RecordsOf(Below(levels, c), data) && z.key == q.key :: z.seqno < q.seqno
  {
    hide Standing, Stored, Upper, Below, RecordsOf, IsMerge, I.Compact;
    p := OutputRecord(cfg, input, q);
    MergeMember(input, Inputs(levels, c), data, p);
    InputKeys(levels, c, data, p);
    PartsStored(levels, c, data);
    forall z | z in RecordsOf(Below(levels, c), data) && z.key == q.key ensures z.seqno < q.seqno {
      assert !cfg.compaction.value.AbsentBeyond(z.key);
    }
  }

  lemma MergeMember(input: seq<R.Record>, files: seq<File>, data: Contents, p: R.Record)
    requires IsMerge(input, files, data)
    ensures p in input <==> p in RecordsOf(files, data)
  {
  }

  lemma AddedInOrder(levels: Levels, c: Compaction, data: Contents, cfg: I.Config, input: seq<R.Record>,
          added: seq<File>)
    requires Standing(levels, c) && Stored(levels, data) && c.output < |levels|
    requires Job(levels, c, data, cfg, input, added)
    ensures InOrder(added, data)
  {
    MergeBounded(levels, c, data, input);
    O.CompactionSorted(cfg, input);
    CutInOrder(added, data);
  }

  /** The new files fit between what stays above and what is below. */
  lemma AddedBetween(levels: Levels, c: Compaction, data: Contents, cfg: I.Config, input: seq<R.Record>,
          added: seq<File>)
    requires Standing(levels, c) && GapClear(levels, c) && Stored(levels, data) && c.output < |levels|
    requires Job(levels, c, data, cfg, input, added)
    ensures Newer(Select(Upper(levels, c), c.inputs, false), added, data) && Newer(added, Below(levels, c), data)
  {
    hide Standing, GapClear, Stored, Upper, Below, RecordsOf, Job, Select;
    var stay := Select(Upper(levels, c), c.inputs, false);
    forall r, q | r in RecordsOf(stay, data) && q in RecordsOf(added, data) && r.key == q.key
      ensures r.seqno > q.seqno
    {
      var p := OutputPlace(levels, c, data, cfg, input, added, q);
      StaysNewer(levels, c, data, r, p);
    }
    forall q, z | q in RecordsOf(added, data) && z in RecordsOf(Below(levels, c), data) && q.key == z.key
      ensures q.seqno > z.seqno
    {
      var p := OutputPlace(levels, c, data, cfg, input, added, q);
    }
  }

  /** Files that leave the keys free hold none of them. */
  lemma ApartNewer(levels: Levels, c: Compaction, data: Contents, cfg: I.Config, input: seq<R.Record>, added: seq<File>,
          b: seq<File>)
    requires Standing(levels, c) && Stored(levels, data) && c.output < |levels|
    requires Job(levels, c, data, cfg, input, added) && AllHold(b, data)
    requires forall f | f in b :: !Overlaps(f, c.lo, c.hi)
    ensures Newer(added, b, data)
  {
    hide Standing, Stored, Job;
    forall q, z | q in RecordsOf(added, data) && z in RecordsOf(b, data) ensures q.key != z.key {
      var p := OutputPlace(levels, c, data, cfg, input, added, q);
      RecordIn(b, data);
      var i :| 0 <= i < |b| && z in Of(b[i], data);
      assert b[i] in b && FileHolds(b[i], data);
    }
  }

  lemma FourInOrder(a: seq<File>, added: seq<File>, b: seq<File>, z: seq<File>, data: Contents)
    requires InOrder(a + b, data) && InOrder(added, data) && InOrder(z, data)
    requires Newer(a + b, added, data) && Newer(a + b, z, data) && Newer(added, b, data) && Newer(added, z, data)
    ensures InOrder(a + added + b + z, data)
  {
    hide InOrder, RecordsOf;
    OrderJoin(a, b, data);
    RecordsJoin(a, b, data);
    OrderJoin(a, added, data);
    RecordsJoin(a, added, data);
    OrderJoin(a + added, b, data);
    RecordsJoin(a + added, b, data);
    OrderJoin(a + added + b, z, data);
  }

  lemma NewerPart(u: seq<File>, s: set<nat>, chosen: bool, z: seq<File>, data: Contents)
    requires Newer(u, z, data)
    ensures Newer(Select(u, s, chosen), z, data)
  {
    forall r | r in RecordsOf(Select(u, s, chosen), data) ensures r in RecordsOf(u, data) {
      SelectRecords(u, s, chosen, data, r);
    }
  }

  /** A completion keeps newer records in front of older ones. */
  lemma FinishStored(levels: Levels, c: Compaction, data: Contents, cfg: I.Config, input: seq<R.Record>,
          added: seq<File>)
    requires Standing(levels, c) && GapClear(levels, c) && Stored(levels, data) && c.output < |levels|
    requires Outputs(levels, c, added) && Job(levels, c, data, cfg, input, added)
    ensures Stored(Finished(levels, c, added), data)
  {
    hide Standing, GapClear, Outputs, Finished, Upper, Below, Select, RecordsOf, InOrder, Newer, KnowsBelow;
    var u, z := Upper(levels, c), Below(levels, c);
    var stay := Select(u, c.inputs, false);
    var a, b := FinishedFiles(levels, c, added);
    PartsStored(levels, c, data);
    SelectIn(u, c.inputs, false);
    SelectInOrder(u, c.inputs, false, data);
    NewerPart(u, c.inputs, false, z, data);
    AddedInOrder(levels, c, data, cfg, input, added);
    AddedBetween(levels, c, data, cfg, input, added);
    HoldSome(stay, a, b, data);
    ApartNewer(levels, c, data, cfg, input, added, b);
    FourInOrder(a, added, b, z, data);
    forall r | r in RecordsOf(FilesOf(Finished(levels, c, added)), data) ensures r.seqno <= R.MAX_SEQ {
      var p := Origin(levels, c, data, cfg, input, added, r);
    }
  }

  lemma HoldSome(stay: seq<File>, a: seq<File>, b: seq<File>, data: Contents)
    requires stay == a + b && AllHold(stay, data)
    ensures AllHold(a, data) && AllHold(b, data)
  {
    forall f | f in a || f in b ensures f in stay {
    }
  }

  lemma FinishedRecord(levels: Levels, c: Compaction, data: Contents, added: seq<File>, r: R.Record)
    requires Standing(levels, c) && c.output < |levels| && r in RecordsOf(FilesOf(Finished(levels, c, added)), data)
    ensures r in RecordsOf(FilesOf(levels), data) || r in RecordsOf(added, data)
  {
    hide Standing, Finished, Upper, Below, RecordsOf, Select;
    var u, z := Upper(levels, c), Below(levels, c);
    var a, b := FinishedFiles(levels, c, added);
    RecordsJoin(a + added + b, z, data);
    RecordsJoin(a + added, b, data);
    RecordsJoin(a, added, data);
    RecordsJoin(a, b, data);
    UpperBelow(levels, c);
    RecordsJoin(u, z, data);
    if r !in RecordsOf(added, data) && r !in RecordsOf(z, data) {
      SelectRecords(u, c.inputs, false, data, r);
    }
  }

  /** What is left after a completion was there before, perhaps with another sequence number. */
  lemma Origin(levels: Levels, c: Compaction, data: Contents, cfg: I.Config, input: seq<R.Record>, added: seq<File>,
          r: R.Record)
    returns (p: R.Record)
    requires Standing(levels, c) && Stored(levels, data) && c.output < |levels|
    requires Job(levels, c, data, cfg, input, added) && r in RecordsOf(FilesOf(Finished(levels, c, added)), data)
    ensures p in RecordsOf(FilesOf(levels), data) && p.key == r.key && p.kind == r.kind
    ensures r.seqno <= p.seqno <= R.MAX_SEQ
    ensures r.seqno != p.seqno ==> cfg.Zeroes(p) && p in RecordsOf(Inputs(levels, c), data)
  {
    hide Standing, Job, Finished, Upper, Below, RecordsOf, InOrder;
    FinishedRecord(levels, c, data, added, r);
    if r in RecordsOf(added, data) {
      p := OutputPlace(levels, c, data, cfg, input, added, r);
      InputKeys(levels, c, data, p);
      UpperBelow(levels, c);
      RecordsJoin(Upper(levels, c), Below(levels, c), data);
    } else {
      p := r;
    }
  }
}
