/** Compactions that start and complete, and snapshots that come and go, keep what holds in the states of the
    database. */
module DatabaseCompactions {
  import opened LevelFiles
  import opened Lookups
  import opened LevelZero
  import opened LevelState
  import opened LevelMeaning
  import opened LevelRecords
  import opened LevelFlat
  import opened LevelJobs
  import opened LevelOrder
  import opened LevelPlans
  import opened LevelReads
  import opened Database
  import opened DatabaseSteps
  import R = Records
  import I = IteratorSpec
  import M = IteratorMeaning
  import T = IteratorTheorems
  import U = IteratorUse

  // ---- A start

  lemma StoredRecord(st: Store, data: Contents, l: nat, g: File, r: R.Record)
    requires IsFile(st.levels, l, g) && r in Of(g, data)
    ensures r in RecordsOf(FilesOf(st.levels), data) && r in All(st, data)
  {
    InFiles(st.levels, l, g);
    RecordIn(FilesOf(st.levels), data);
  }

  lemma StartTimely(st: Store, data: Contents, c: Compaction, cfg: I.Config)
    requires LiveOk(st, data) && ListsLive(st, cfg)
    ensures Timely(st.levels, c, data, cfg, st.live)
  {
    hide All;
    forall l: nat, g, r | IsFile(st.levels, l, g) && g.number in c.inputs && r in Of(g, data)
      ensures 0 in cfg.snapshots ==> r.seqno > 0
    {
      StoredRecord(st, data, l, g, r);
    }
  }

  lemma StartStep(st: Store, data: Contents, id: nat, c: Compaction, cfg: I.Config)
    requires Ok(st, data) && CanStart(st, id, c, cfg)
    ensures Ok(st.(running := st.running[id := c], jobs := st.jobs[id := cfg]), data)
  {
    hide LevelsOk, RunningOk, Stored, KnowsBelow, Timely, TablesOk, LogOk, Logged, Descending, LiveOk, Ready, PlanOf;
    var st' := st.(running := st.running[id := c], jobs := st.jobs[id := cfg]);
    RegisterOk(st.levels, st.running, c, id);
    PlanValid(st.levels, c, cfg.compaction.value);
    StartKnows(st.levels, c, data, cfg.compaction.value);
    StartTimely(st, data, c, cfg);
    SameRecords(st, st', data);
  }

  lemma BeginStep(st: Store, data: Contents, id: nat, cfg: I.Config)
    requires Ok(st, data) && CanBegin(st, id, cfg)
    ensures Ok(st.(jobs := st.jobs[id := cfg]), data)
  {
    hide LevelsOk, RunningOk, Stored, KnowsBelow, Timely, TablesOk, LogOk, Logged, Descending, LiveOk;
    StartTimely(st, data, st.running[id], cfg);
    SameRecords(st, st.(jobs := st.jobs[id := cfg]), data);
  }

  lemma SameRecords(st: Store, st': Store, data: Contents)
    requires All(st', data) == All(st, data) && st'.log == st.log && Logged(st, data) && Descending(st, data)
    ensures Logged(st', data) && Descending(st', data)
    ensures LiveOk(st, data) && st'.live <= st.live ==> LiveOk(st', data)
  {
    forall k ensures R.History(Versions(st', data, k), k) {
      assert Versions(st, data, k) == Versions(st', data, k);
    }
  }

  // ---- A completion

  /** The job is the one that was planned. */
  lemma Planned(st: Store, data: Contents, id: nat, input: seq<R.Record>, added: seq<File>)
    requires Ok(st, data) && CanFinish(st, data, id, input, added)
    ensures var c := st.running[id];
            && Standing(st.levels, c) && GapClear(st.levels, c) && Usual(c)
            && Job(st.levels, c, data, st.jobs[id], input, added) && Timely(st.levels, c, data, st.jobs[id], st.live)
  {
    hide LevelsOk, Stored, TablesOk, LogOk, Logged, Descending, LiveOk, KnowsBelow, Timely, Standing;
    GapUsual(st.levels, st.running[id]);
  }

  lemma InputTimely(levels: Levels, c: Compaction, data: Contents, cfg: I.Config, live: set<nat>, p: R.Record)
    requires Timely(levels, c, data, cfg, live) && c.output < |levels| && p in RecordsOf(Inputs(levels, c), data)
    ensures (0 in cfg.snapshots ==> p.seqno > 0) && forall s | s in live && s !in cfg.snapshots :: p.seqno <= s
  {
    var u := Upper(levels, c);
    var i := SelectedAt(u, c.inputs, true, data, p);
    UpperBelow(levels, c);
    var l := FileOf(levels, u[i]);
  }

  lemma FinishReaders(levels: Levels, c: Compaction, data: Contents, cfg: I.Config, input: seq<R.Record>,
          live: set<nat>)
    requires Timely(levels, c, data, cfg, live) && c.output < |levels| && IsMerge(input, Inputs(levels, c), data)
    ensures forall s | s in live :: Reader(cfg, input, s)
    ensures 0 in cfg.snapshots ==> forall r | r in input :: r.seqno > 0
  {
    hide Timely, Inputs, RecordsOf, IsMerge;
    forall r | r in input
      ensures (0 in cfg.snapshots ==> r.seqno > 0) && forall s | s in live && s !in cfg.snapshots :: r.seqno <= s
    {
      MergeMember(input, Inputs(levels, c), data, r);
      InputTimely(levels, c, data, cfg, live, r);
    }
  }

  lemma FinishRewrites(st: Store, data: Contents, id: nat, input: seq<R.Record>, added: seq<File>, k: Key)
    requires Ok(st, data) && CanFinish(st, data, id, input, added)
    ensures Rewrites(st, Completed(st, id, added), data, st.jobs[id], input, k,
                     R.VersionsOf(Join(st.tables), k) + Staying(st.levels, st.running[id], data, k),
                     Deeper(st.levels, st.running[id], data, k))
  {
    hide LevelsOk, RunningOk, Stored, JobsOk, TablesOk, LogOk, Logged, Descending, LiveOk, IsMerge, AllHold, I.Compact;
    hide Join, RecordsOf, R.VersionsOf, Outputs, Inputs, Standing, GapClear, Job, Timely, KnowsBelow, Finished,
         T.Placed;
    hide R.Sorted, M.Bounded, Upper, Below, Select, Reader, FilesOf;
    var c, cfg := st.running[id], st.jobs[id];
    var tables, st' := Join(st.tables), Completed(st, id, added);
    var stay, d := Staying(st.levels, c, data, k), Deeper(st.levels, c, data, k);
    Planned(st, data, id, input, added);
    JobParts(st.levels, c, data, cfg, input, added);
    FinishVersions(st.levels, c, data, cfg, input, added, k);
    R.VersionsOfConcat(tables, RecordsOf(FilesOf(st.levels), data), k);
    R.VersionsOfConcat(tables, RecordsOf(FilesOf(st'.levels), data), k);
    MergeBounded(st.levels, c, data, input);
    FinishReaders(st.levels, c, data, cfg, input, st.live);
    UnusedVersions(cfg, input, k);
    DeeperVersions(st.levels, c, data, k);
    if R.VersionsOf(input, k) != [] {
      JobPlaced(st.levels, c, data, cfg, input, added, k);
    }
  }

  lemma JobParts(levels: Levels, c: Compaction, data: Contents, cfg: I.Config, input: seq<R.Record>, added: seq<File>)
    requires c.output < |levels| && Job(levels, c, data, cfg, input, added)
    ensures cfg.Valid() && IsMerge(input, Inputs(levels, c), data)
  {
  }

  lemma UnusedVersions(cfg: I.Config, input: seq<R.Record>, k: Key)
    requires 0 in cfg.snapshots ==> forall r | r in input :: r.seqno > 0
    ensures U.ZeroUnused(cfg, R.VersionsOf(input, k))
  {
    if 0 in cfg.snapshots {
      UnusedInput(cfg, input, k);
    }
  }

  lemma DeeperVersions(levels: Levels, c: Compaction, data: Contents, k: Key)
    requires c.output < |levels| && Stored(levels, data)
    ensures R.VersionsOf(Deeper(levels, c, data, k), k) == Deeper(levels, c, data, k)
  {
    PartsStored(levels, c, data);
    HistoryOf(Below(levels, c), data, k);
    R.VersionsOfAll(Deeper(levels, c, data, k), k);
  }

  lemma FinishTimely(levels: Levels, c: Compaction, d: Compaction, data: Contents, added: seq<File>, cfg: I.Config,
          live: set<nat>)
    requires Standing(levels, c) && Standing(levels, d) && Outputs(levels, c, added)
    requires Timely(levels, d, data, cfg, live)
    ensures Timely(Finished(levels, c, added), d, data, cfg, live)
  {
    AddedOther(levels, added, d);
    FinishedChanged(levels, c, added);
    hide Standing, Outputs, Finished;
    forall l: nat, g | IsFile(Finished(levels, c, added), l, g) && g.number in d.inputs ensures IsFile(levels, l, g) {
    }
  }

  lemma FinishJobs(st: Store, data: Contents, id: nat, input: seq<R.Record>, added: seq<File>, other: nat)
    requires Ok(st, data) && CanFinish(st, data, id, input, added) && other in st.running && other != id
    ensures other in st.jobs
    ensures JobOk(Completed(st, id, added).levels, st.running[other], data, st.jobs[other], st.live)
  {
    hide LevelsOk, Stored, TablesOk, LogOk, Logged, Descending, LiveOk, KnowsBelow, Timely, Standing, NewLevel;
    hide Job, IsMerge, AllHold, RecordsOf, I.Compact, ZeroOrder, Compatible, Outputs, GapClear, Inputs;
    Planned(st, data, id, input, added);
    var c, d := st.running[id], st.running[other];
    FinishKnows(st.levels, c, d, data, st.jobs[id], input, added, st.jobs[other].compaction.value);
    FinishTimely(st.levels, c, d, data, added, st.jobs[other], st.live);
  }

  /** What is left after a completion was there before; it lost its sequence number only if no snapshot is 0. */
  lemma CompletedFrom(st: Store, data: Contents, id: nat, input: seq<R.Record>, added: seq<File>, r: R.Record)
    returns (p: R.Record)
    requires Ok(st, data) && CanFinish(st, data, id, input, added) && r in All(Completed(st, id, added), data)
    ensures p in All(st, data) && p.key == r.key && p.kind == r.kind && r.seqno <= p.seqno
    ensures 0 in st.live ==> r.seqno > 0
  {
    hide LevelsOk, RunningOk, Stored, JobsOk, TablesOk, LogOk, Logged, Descending, IsMerge, AllHold, I.Compact;
    hide RecordsOf, Join, Outputs, Inputs, Standing, GapClear, Job, Timely, KnowsBelow, Finished;
    if r in RecordsOf(FilesOf(Completed(st, id, added).levels), data) {
      var c, cfg := st.running[id], st.jobs[id];
      Planned(st, data, id, input, added);
      p := Origin(st.levels, c, data, cfg, input, added, r);
      if 0 in st.live && r.seqno != p.seqno {
        InputTimely(st.levels, c, data, cfg, st.live, p);
        JobParts(st.levels, c, data, cfg, input, added);
        NotZeroed(cfg, p);
      }
    } else {
      p := r;
    }
  }

  /** With a snapshot numbered 0 only sequence number 0 can be set to 0. */
  lemma NotZeroed(cfg: I.Config, p: R.Record)
    requires cfg.Valid() && cfg.Zeroes(p)
    ensures 0 in cfg.snapshots ==> p.seqno == 0
  {
  }

  lemma FinishStep(st: Store, data: Contents, id: nat, input: seq<R.Record>, added: seq<File>)
    requires Ok(st, data) && CanFinish(st, data, id, input, added)
    ensures Ok(Completed(st, id, added), data)
  {
    hide LevelsOk, RunningOk, Stored, JobOk, TablesOk, LogOk, IsMerge, AllHold, I.Compact, R.History, Versions,
         Rewrites;
    hide RecordsOf, Join, All, Outputs, Inputs, Standing, GapClear, Job, Timely, NewLevel;
    var st' := Completed(st, id, added);
    Planned(st, data, id, input, added);
    FinishOk(st.levels, st.running, id, added);
    FinishStored(st.levels, st.running[id], data, st.jobs[id], input, added);
    forall other | other in st'.running ensures JobOk(st'.levels, st'.running[other], data, st'.jobs[other], st.live) {
      FinishJobs(st, data, id, input, added, other);
    }
    forall r | r in All(st', data) ensures From(st.log, r) && (0 in st.live ==> r.seqno > 0) {
      var p := CompletedFrom(st, data, id, input, added, r);
      FromOlder(st.log, p, r);
    }
    forall k ensures R.History(Versions(st', data, k), k) {
      FinishRewrites(st, data, id, input, added, k);
      RewriteHistory(st, st', data, st.jobs[id], input, k,
                     R.VersionsOf(Join(st.tables), k) + Staying(st.levels, st.running[id], data, k),
                     Deeper(st.levels, st.running[id], data, k));
    }
  }

  // ---- Snapshots

  lemma TakeStep(st: Store, data: Contents)
    requires Ok(st, data)
    ensures Ok(st.(live := st.live + {Last(st.log)}), data)
  {
    hide LevelsOk, RunningOk, Stored, KnowsBelow, TablesOk, LogOk, Logged, Descending, All;
    var st' := st.(live := st.live + {Last(st.log)});
    assert All(st', data) == All(st, data) by {
      SameAll(st, st', data);
    }
    SameRecords(st, st', data);
    forall r | r in All(st, data) ensures 0 in st'.live ==> r.seqno > 0 {
      NotNewer(st, data, r);
      FirstWrite(st.log);
    }
    forall id | id in st.running ensures Timely(st.levels, st.running[id], data, st.jobs[id], st'.live) {
      TakeTimely(st, data, st.running[id], st.jobs[id]);
    }
  }

  lemma SameAll(st: Store, st': Store, data: Contents)
    requires st'.tables == st.tables && st'.levels == st.levels
    ensures All(st', data) == All(st, data)
  {
  }

  lemma FirstWrite(log: seq<R.Record>)
    requires LogOk(log) && log != []
    ensures Last(log) > 0
  {
  }

  /** A later snapshot is not older than any input. */
  lemma TakeTimely(st: Store, data: Contents, c: Compaction, cfg: I.Config)
    requires LogOk(st.log) && Logged(st, data) && Timely(st.levels, c, data, cfg, st.live)
    ensures Timely(st.levels, c, data, cfg, st.live + {Last(st.log)})
  {
    hide LogOk, Logged, All;
    forall l: nat, g, r | IsFile(st.levels, l, g) && g.number in c.inputs && r in Of(g, data)
      ensures r.seqno <= Last(st.log)
    {
      StoredRecord(st, data, l, g, r);
      NotNewer(st, data, r);
    }
  }

  lemma ReleaseStep(st: Store, data: Contents, s: nat)
    requires Ok(st, data)
    ensures Ok(st.(live := st.live - {s}), data)
  {
    hide LevelsOk, RunningOk, Stored, KnowsBelow, TablesOk, LogOk, Logged, Descending;
    SameRecords(st, st.(live := st.live - {s}), data);
  }

  lemma SwitchStep(st: Store, data: Contents)
    requires Ok(st, data)
    ensures Ok(st.(tables := [[]] + st.tables), data)
  {
    hide LevelsOk, RunningOk, Stored, KnowsBelow, Timely, LogOk, Logged, Descending;
    var st' := st.(tables := [[]] + st.tables);
    SwitchSame(st, data);
    SameRecords(st, st', data);
    forall i | 0 <= i < |st'.tables| ensures R.Sorted(st'.tables[i]) {
      assert i > 0 ==> st'.tables[i] == st.tables[i - 1];
    }
  }

  lemma SwitchSame(st: Store, data: Contents)
    ensures Join([[]] + st.tables) == Join(st.tables) && All(st.(tables := [[]] + st.tables), data) == All(st, data)
  {
    assert ([[]] + st.tables)[1..] == st.tables;
  }

  /** Every step keeps what holds. */
  lemma StepOk(st: Store, data: Contents, a: Action)
    requires Ok(st, data) && Enabled(st, data, a)
    ensures Ok(Next(st, data, a), data)
  {
    hide CanFlush, CanStart, CanBegin, CanFinish;
    match a
    case Write(r) => WriteStep(st, data, r);
    case Switch => SwitchStep(st, data);
    case Flush(m, cfg, input, added) => FlushStep(st, data, m, cfg, input, added);
    case Start(id, c, cfg) => StartStep(st, data, id, c, cfg);
    case Begin(id, cfg) => BeginStep(st, data, id, cfg);
    case Finish(id, input, added) => FinishStep(st, data, id, input, added);
    case Take => TakeStep(st, data);
    case Release(s) => ReleaseStep(st, data, s);
  }
}
