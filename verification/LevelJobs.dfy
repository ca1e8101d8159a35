/** Picker and iterator together: what a level-style compaction reads, writes and finds below. */
module LevelJobs {
  import opened Options
  import opened LevelFiles
  import opened Lookups
  import opened LevelZero
  import opened LevelState
  import opened LevelRecords
  import opened LevelFlat
  import R = Records
  import S = Snapshots
  import P = Compactions
  import I = IteratorSpec
  import G = IteratorGroups
  import Q = IteratorGuards
  import M = IteratorMeaning
  import Z = IteratorZero
  import T = IteratorTheorems

  /** Files hold their records, newer ones in front of older ones. */
  ghost predicate Stored(levels: Levels, data: Contents) {
    && AllHold(FilesOf(levels), data) && InOrder(FilesOf(levels), data)
    && forall r | r in RecordsOf(FilesOf(levels), data) :: r.seqno <= R.MAX_SEQ
  }

  function Inputs(levels: Levels, c: Compaction): seq<File>
    requires c.output < |levels|
  {
    Select(Upper(levels, c), c.inputs, true)
  }

  /** The check for deeper levels, made with the version that the compaction was picked from, calls no key absent that
      it can hold and that is below. */
  ghost predicate KnowsBelow(levels: Levels, c: Compaction, data: Contents, plan: P.Compaction)
    requires c.output < |levels|
  {
    forall q | q in RecordsOf(Below(levels, c), data) && c.lo <= q.key <= c.hi :: !plan.AbsentBeyond(q.key)
  }

  /** What the compaction does: it reads its input files and writes what the iterator outputs. */
  ghost predicate Job(levels: Levels, c: Compaction, data: Contents, cfg: I.Config, input: seq<R.Record>,
          added: seq<File>)
    requires c.output < |levels|
  {
    && cfg.Valid() && cfg.compaction.Some? && KnowsBelow(levels, c, data, cfg.compaction.value)
    && IsMerge(input, Inputs(levels, c), data)
    && AllHold(added, data) && RecordsOf(added, data) == I.Compact(cfg, input)
  }

  // ---- Parts of the levels

  lemma DataAt(levels: Levels, data: Contents, s: nat)
    requires AllHold(FilesOf(levels), data)
    ensures DataOk(levels, At(data, s))
  {
    forall l, i | 0 <= l < |levels| && 0 <= i < |levels[l]| ensures FileData(levels[l][i], At(data, s)) {
      InFiles(levels, l, levels[l][i]);
      HeldAt(levels[l][i], data, s);
    }
  }

  lemma HeldAt(f: File, data: Contents, s: nat)
    requires FileHolds(f, data)
    ensures FileData(f, At(data, s))
  {
    forall k | k in At(data, s)[f.number] ensures f.smallest <= k <= f.largest {
      NewestKey(Of(f, data), k, s);
    }
  }

  /** Above and below are stored in order too, and inputs are newer than what is below. */
  lemma PartsStored(levels: Levels, c: Compaction, data: Contents)
    requires Stored(levels, data) && c.output < |levels|
    ensures var u, z := Upper(levels, c), Below(levels, c);
            && AllHold(u, data) && InOrder(u, data) && AllHold(z, data) && InOrder(z, data) && Newer(u, z, data)
            && AllHold(Inputs(levels, c), data) && InOrder(Inputs(levels, c), data)
            && (forall r | r in RecordsOf(u, data) :: r.seqno <= R.MAX_SEQ)
  {
    var u, z := Upper(levels, c), Below(levels, c);
    UpperBelow(levels, c);
    OrderJoin(u, z, data);
    RecordsJoin(u, z, data);
    SelectIn(u, c.inputs, true);
    SelectInOrder(u, c.inputs, true, data);
  }

  /** The inputs hold keys of the compaction only. */
  lemma InputKeys(levels: Levels, c: Compaction, data: Contents, r: R.Record)
    requires Standing(levels, c) && Stored(levels, data) && r in RecordsOf(Inputs(levels, c), data)
    ensures c.lo <= r.key <= c.hi && r in RecordsOf(Upper(levels, c), data) && r.seqno <= R.MAX_SEQ
  {
    PartsStored(levels, c, data);
    var ins := Inputs(levels, c);
    RecordIn(ins, data);
    var i :| 0 <= i < |ins| && r in Of(ins[i], data);
    SelectIn(Upper(levels, c), c.inputs, true);
    assert ins[i] in ins && FileHolds(ins[i], data);
    UpperBelow(levels, c);
    var l := FileOf(levels, ins[i]);
    SelectRecords(Upper(levels, c), c.inputs, true, data, r);
  }

  // ---- One key

  /** The versions of a key below the compaction. */
  ghost function Deeper(levels: Levels, c: Compaction, data: Contents, k: Key): seq<R.Record>
    requires c.output < |levels|
  {
    R.VersionsOf(RecordsOf(Below(levels, c), data), k)
  }

  lemma MergedRecord(levels: Levels, c: Compaction, data: Contents, input: seq<R.Record>, i: nat)
    requires Standing(levels, c) && Stored(levels, data) && c.output < |levels|
    requires IsMerge(input, Inputs(levels, c), data) && i < |input|
    ensures c.lo <= input[i].key <= c.hi && input[i] in RecordsOf(Upper(levels, c), data) && input[i].seqno <= R.MAX_SEQ
  {
    InputKeys(levels, c, data, input[i]);
  }

  lemma MergeBounded(levels: Levels, c: Compaction, data: Contents, input: seq<R.Record>)
    requires Standing(levels, c) && Stored(levels, data) && c.output < |levels|
    requires IsMerge(input, Inputs(levels, c), data)
    ensures R.Sorted(input) && M.Bounded(input)
  {
    forall i | 0 <= i < |input| ensures input[i].seqno <= R.MAX_SEQ {
      MergedRecord(levels, c, data, input, i);
    }
  }

  /** Each version below is a version of a key that the check for deeper levels expects there. */
  lemma DeeperRecord(levels: Levels, c: Compaction, data: Contents, plan: P.Compaction, input: seq<R.Record>, k: Key,
          j: nat)
    requires Standing(levels, c) && Stored(levels, data) && c.output < |levels|
    requires IsMerge(input, Inputs(levels, c), data) && KnowsBelow(levels, c, data, plan)
    requires R.VersionsOf(input, k) != [] && j < |Deeper(levels, c, data, k)|
    ensures Deeper(levels, c, data, k)[j].key == k && !plan.AbsentBeyond(k)
    ensures forall v | 0 <= v < |R.VersionsOf(input, k)| ::
              Deeper(levels, c, data, k)[j].seqno < R.VersionsOf(input, k)[v].seqno
  {
    hide Standing, Stored, IsMerge, Upper, Below;
    var g, below := R.VersionsOf(input, k), RecordsOf(Below(levels, c), data);
    PartsStored(levels, c, data);
    var q := Deeper(levels, c, data, k)[j];
    VersionIn(below, k, q);
    var x := R.VersionIndex(input, k, 0);
    MergedRecord(levels, c, data, input, x);
    forall v | 0 <= v < |g| ensures q.seqno < g[v].seqno {
      var y := R.VersionIndex(input, k, v);
      MergedRecord(levels, c, data, input, y);
    }
  }

  lemma JobPlaced(levels: Levels, c: Compaction, data: Contents, cfg: I.Config, input: seq<R.Record>, added: seq<File>,
          k: Key)
    requires Standing(levels, c) && Stored(levels, data) && c.output < |levels|
    requires Job(levels, c, data, cfg, input, added) && R.VersionsOf(input, k) != []
    ensures T.Placed(cfg, input, Deeper(levels, c, data, k), k)
    ensures R.VersionsOf(Deeper(levels, c, data, k), k) == Deeper(levels, c, data, k)
  {
    hide Standing, Stored, IsMerge, KnowsBelow, AllHold, RecordsOf, Upper, Below, R.VersionsOf;
    var d := Deeper(levels, c, data, k);
    PartsStored(levels, c, data);
    HistoryOf(Below(levels, c), data, k);
    R.VersionsOfAll(d, k);
    MergeBounded(levels, c, data, input);
    if d != [] {
      DeeperRecord(levels, c, data, cfg.compaction.value, input, k, 0);
    }
    forall j, v | 0 <= j < |d| && 0 <= v < |R.VersionsOf(input, k)|
      ensures d[j].seqno < R.VersionsOf(input, k)[v].seqno
    {
      DeeperRecord(levels, c, data, cfg.compaction.value, input, k, j);
    }
    cfg.compaction.value.BeneathOneKey(input, d, k);
  }

  /** A snapshot that a job knows, the tip, or a snapshot taken later. */
  ghost predicate Reader(cfg: I.Config, input: seq<R.Record>, s: nat) {
    S.ReadPoint(cfg.snapshots, s) || forall r | r in input :: r.seqno <= s
  }

  lemma {:induction false} NewestOfAll(recs: seq<R.Record>, k: Key, s: nat, t: nat)
    requires forall r | r in recs && r.key == k :: r.seqno <= s && r.seqno <= t
    ensures R.Newest(recs, k, s) == R.Newest(recs, k, t)
    decreases |recs|
  {
    if recs != [] {
      assert recs[0] in recs;
      NewestOfAll(recs[1..], k, s, t);
    }
  }

  /** Outputs have the keys of inputs and are not newer. */
  lemma OutputRecord(cfg: I.Config, input: seq<R.Record>, q: R.Record) returns (p: R.Record)
    requires q in I.Compact(cfg, input)
    ensures p in input && p.key == q.key && p.kind == q.kind && q.seqno <= p.seqno
    ensures q.seqno != p.seqno ==> q.seqno == 0 && cfg.Zeroes(p)
  {
    var o :| 0 <= o < |I.Compact(cfg, input)| && I.Compact(cfg, input)[o] == q;
    var i := G.OutputFromInput(cfg, input, I.Fresh(true), o);
    p := input[i];
  }

  /** What the iterator keeps for the snapshots it knows it keeps for later ones. */
  lemma KeptForReader(cfg: I.Config, input: seq<R.Record>, d: seq<R.Record>, k: Key, s: nat)
    requires T.Placed(cfg, input, d, k) && R.VersionsOf(d, k) == d && Reader(cfg, input, s)
    requires Z.Safe(cfg, R.VersionsOf(input, k), d, Q.EnoughFor(cfg, input, k))
    ensures R.Read(I.Compact(cfg, input), d, k, s) == R.Read(input, d, k, s)
  {
    hide Z.Safe, R.VersionsOf, R.Newest, I.Compact;
    T.ReadsKeptExactly(cfg, input, d, k);
    var g := R.VersionsOf(input, k);
    if !S.ReadPoint(cfg.snapshots, s) {
      var out := I.Compact(cfg, input);
      forall r | r in out ensures r.seqno <= s && r.seqno <= R.MAX_SEQ {
        var p := OutputRecord(cfg, input, r);
      }
      assert S.ReadPoint(cfg.snapshots, R.MAX_SEQ);
      NewestOfAll(out, k, s, R.MAX_SEQ);
      NewestOfAll(input, k, s, R.MAX_SEQ);
      if g == [] {
        NothingRead(cfg, input, k, s);
      } else {
        var i := R.VersionIndex(input, k, 0);
        assert forall v | 0 <= v < |d| :: d[v].seqno < g[0].seqno;
        NewestOfAll(d, k, s, R.MAX_SEQ);
      }
    }
  }

  lemma NothingRead(cfg: I.Config, input: seq<R.Record>, k: Key, s: nat)
    requires R.Sorted(input) && R.VersionsOf(input, k) == []
    ensures R.VersionsOf(I.Compact(cfg, input), k) == []
    ensures R.Newest(I.Compact(cfg, input), k, s) == None && R.Newest(input, k, s) == None
  {
    hide I.Compact;
    var first := G.KeyRun(cfg, input, k);
    G.RunEmpty(cfg, I.Fresh(first));
    R.NewestOfVersions(I.Compact(cfg, input), k, s);
    R.NewestOfVersions(input, k, s);
  }

  /** Compaction and deeper levels answer alike if the iterator keeps the reads of the key. */
  lemma KeptBelow(levels: Levels, c: Compaction, data: Contents, cfg: I.Config, input: seq<R.Record>, added: seq<File>,
          k: Key, s: nat)
    requires Standing(levels, c) && Stored(levels, data) && c.output < |levels|
    requires Job(levels, c, data, cfg, input, added) && Reader(cfg, input, s)
    requires Z.Safe(cfg, R.VersionsOf(input, k), Deeper(levels, c, data, k), Q.EnoughFor(cfg, input, k))
    ensures var below := RecordsOf(Below(levels, c), data);
            R.Read(I.Compact(cfg, input), below, k, s) == R.Read(input, below, k, s)
  {
    hide Standing, Stored, Z.Safe, R.Read, I.Compact;
    var below, d := RecordsOf(Below(levels, c), data), Deeper(levels, c, data, k);
    R.ReadOfVersions(I.Compact(cfg, input), below, k, s);
    R.ReadOfVersions(input, below, k, s);
    if R.VersionsOf(input, k) == [] {
      NothingRead(cfg, input, k, s);
    } else {
      JobPlaced(levels, c, data, cfg, input, added, k);
      KeptForReader(cfg, input, d, k, s);
      R.ReadOfVersions(I.Compact(cfg, input), d, k, s);
      R.ReadOfVersions(input, d, k, s);
    }
  }

  lemma StoredHolds(levels: Levels, data: Contents)
    requires Stored(levels, data)
    ensures AllHold(FilesOf(levels), data)
  {
  }
}
