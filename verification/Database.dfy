/** A database with memtables, flushes, level-style compactions and snapshots: its state, its steps and its reads. */
module Database {
  import opened Options
  import opened LevelFiles
  import opened LevelZero
  import opened LevelState
  import opened LevelRecords
  import opened LevelJobs
  import opened LevelPlans
  import R = Records
  import S = Snapshots
  import I = IteratorSpec

  /** Levels of files, the compactions that run with what each iterator was told at its start, memtables with the one
      that is written to first, all writes ever with the newest first, and the live snapshots. */
  datatype Store = Store(
    levels: Levels,
    running: Running,
    jobs: map<nat, I.Config>,
    tables: seq<seq<R.Record>>,
    log: seq<R.Record>,
    live: set<nat>)

  datatype Action =
    | Write(r: R.Record)
    | Switch
    | Flush(m: nat, cfg: I.Config, input: seq<R.Record>, added: seq<File>)
    | Start(id: nat, c: Compaction, cfg: I.Config)
    | Begin(id: nat, cfg: I.Config)
    | Finish(id: nat, input: seq<R.Record>, added: seq<File>)
    | Take
    | Release(s: nat)

  function Last(log: seq<R.Record>): nat {
    if log == [] then 0 else log[0].seqno
  }

  function Join(tables: seq<seq<R.Record>>): seq<R.Record> {
    if tables == [] then [] else tables[0] + Join(tables[1..])
  }

  /** A record goes to its place in a sorted memtable. */
  function Put(table: seq<R.Record>, r: R.Record): seq<R.Record> {
    if table == [] || R.Before(r, table[0]) then [r] + table else [table[0]] + Put(table[1..], r)
  }

  /** What an iterator reads of several memtables. */
  ghost predicate Merges(input: seq<R.Record>, recs: seq<R.Record>) {
    R.Sorted(input) && forall r :: r in input <==> r in recs
  }

  function Written(st: Store, r: R.Record): Store
    requires st.tables != []
  {
    st.(tables := [Put(st.tables[0], r)] + st.tables[1..], log := [r] + st.log)
  }

  /** A flush merges the oldest memtables through an iterator without a compaction, into one file if any record is left.
      It is one step here: each live snapshot is in its list or was taken after the last record that is flushed. */
  ghost predicate CanFlush(st: Store, data: Contents, m: nat, cfg: I.Config, input: seq<R.Record>, added: seq<File>) {
    && 1 <= m < |st.tables| && Merges(input, Join(st.tables[m..]))
    && cfg.Valid() && cfg.compaction.None? && (forall s | s in st.live :: Reader(cfg, input, s))
    && |added| <= 1 && Fresh(st.levels, added) && RangesOk(added)
    && AllHold(added, data) && RecordsOf(added, data) == I.Compact(cfg, input)
  }

  function Flushed(st: Store, m: nat, added: seq<File>): Store
    requires m <= |st.tables| && st.levels != []
  {
    st.(tables := st.tables[..m],
        levels := if added == [] then st.levels else st.levels[0 := [added[0]] + st.levels[0]])
  }

  /** A picked compaction takes the version that it was picked from, and the list of live snapshots. */
  ghost predicate CanStart(st: Store, id: nat, c: Compaction, cfg: I.Config) {
    && id !in st.running && c.output < |st.levels| && Ready(st.levels, st.running, c) && Usual(c)
    && ListsLive(st, cfg) && cfg.compaction.Some? && PlanOf(st.levels, c, cfg.compaction.value)
  }

  ghost predicate ListsLive(st: Store, cfg: I.Config) {
    && S.Ascending(cfg.snapshots) && S.ReadPoint(cfg.snapshots, cfg.writeConflict)
    && forall s :: s in cfg.snapshots <==> s in st.live
  }

  /** It may have had to wait, and takes the list again when it begins to run. */
  ghost predicate CanBegin(st: Store, id: nat, cfg: I.Config) {
    id in st.running && id in st.jobs && cfg.compaction == st.jobs[id].compaction && ListsLive(st, cfg)
  }

  ghost predicate CanFinish(st: Store, data: Contents, id: nat, input: seq<R.Record>, added: seq<File>) {
    && id in st.running && id in st.jobs && st.running[id].output < |st.levels|
    && Outputs(st.levels, st.running[id], added) && IsMerge(input, Inputs(st.levels, st.running[id]), data)
    && AllHold(added, data) && RecordsOf(added, data) == I.Compact(st.jobs[id], input)
  }

  function Completed(st: Store, id: nat, added: seq<File>): Store
    requires id in st.running
  {
    st.(levels := Finished(st.levels, st.running[id], added), running := st.running - {id}, jobs := st.jobs - {id})
  }

  /** What each step demands. The records of each file number, `data`, never change. */
  ghost predicate Enabled(st: Store, data: Contents, a: Action) {
    match a
    case Write(r) => Last(st.log) < r.seqno <= R.MAX_SEQ
    case Switch => true
    case Flush(m, cfg, input, added) => CanFlush(st, data, m, cfg, input, added)
    case Start(id, c, cfg) => CanStart(st, id, c, cfg)
    case Begin(id, cfg) => CanBegin(st, id, cfg)
    case Finish(id, input, added) => CanFinish(st, data, id, input, added)
    case Take => true
    case Release(s) => true
  }

  ghost function Next(st: Store, data: Contents, a: Action): Store
    requires st.tables != [] && st.levels != [] && Enabled(st, data, a)
  {
    match a
    case Write(r) => Written(st, r)
    case Switch => st.(tables := [[]] + st.tables)
    case Flush(m, _, _, added) => Flushed(st, m, added)
    case Start(id, c, cfg) => st.(running := st.running[id := c], jobs := st.jobs[id := cfg])
    case Begin(id, cfg) => st.(jobs := st.jobs[id := cfg])
    case Finish(id, _, added) => Completed(st, id, added)
    case Take => st.(live := st.live + {Last(st.log)})
    case Release(s) => st.(live := st.live - {s})
  }

  ghost function Empty(n: nat): Store
    requires n > 0
  {
    Store(seq(n, _ => []), map[], map[], [[]], [], {})
  }

  ghost predicate IsRun(run: seq<Store>, actions: seq<Action>, data: Contents) {
    && |run| == |actions| + 1 && (exists n: nat | n > 0 :: run[0] == Empty(n))
    && forall i | 0 <= i < |actions| :: Steps(run[i], data, actions[i], run[i + 1])
  }

  ghost predicate Steps(st: Store, data: Contents, a: Action, st': Store) {
    st.tables != [] && st.levels != [] && Enabled(st, data, a) && st' == Next(st, data, a)
  }

  // ---- Reads

  ghost function InTables(tables: seq<seq<R.Record>>, k: Key, s: nat): Option<R.Record> {
    if tables == [] then None
    else if R.Newest(tables[0], k, s).Some? then R.Newest(tables[0], k, s)
    else InTables(tables[1..], k, s)
  }

  /** A read of `k` at `s`: memtables first, the newest before the others, then file by file and level by level. */
  ghost function View(st: Store, data: Contents, k: Key, s: nat): R.Answer {
    var found := InTables(st.tables, k, s);
    if found.Some? then R.Seen(found.value) else ReadAt(st.levels, data, k, s)
  }

  /** All records in the order in which a read looks at them. */
  ghost function All(st: Store, data: Contents): seq<R.Record> {
    Join(st.tables) + RecordsOf(FilesOf(st.levels), data)
  }

  ghost function Versions(st: Store, data: Contents, k: Key): seq<R.Record> {
    R.VersionsOf(All(st, data), k)
  }

  lemma {:induction false} TablesJoin(tables: seq<seq<R.Record>>, k: Key, s: nat)
    ensures InTables(tables, k, s) == R.Newest(Join(tables), k, s)
    decreases |tables|
  {
    if tables != [] {
      TablesJoin(tables[1..], k, s);
      NewestJoin(tables[0], Join(tables[1..]), k, s);
    }
  }

  lemma ViewIsRead(st: Store, data: Contents, k: Key, s: nat)
    ensures View(st, data, k, s) == R.Read(Versions(st, data, k), [], k, s)
  {
    hide R.Newest;
    var files := RecordsOf(FilesOf(st.levels), data);
    TablesJoin(st.tables, k, s);
    ReadIsRead(st.levels, data, k, s);
    NewestJoin(Join(st.tables), files, k, s);
    R.NewestOfVersions(All(st, data), k, s);
  }

  // ---- What holds in every state

  /** A record is what is left of a write. */
  ghost predicate From(log: seq<R.Record>, r: R.Record) {
    exists w | w in log :: w.key == r.key && w.kind == r.kind && r.seqno <= w.seqno
  }

  predicate LogOk(log: seq<R.Record>) {
    && (forall i, j | 0 <= i < j < |log| :: log[i].seqno > log[j].seqno)
    && (forall w | w in log :: 0 < w.seqno <= R.MAX_SEQ)
  }

  /** A compaction's list of snapshots has every live one that an input record can be newer than, and a snapshot
      numbered 0 only if it reads no record with sequence 0. */
  ghost predicate Timely(levels: Levels, c: Compaction, data: Contents, cfg: I.Config, live: set<nat>) {
    forall l: nat, g, r | IsFile(levels, l, g) && g.number in c.inputs && r in Of(g, data) ::
      && (0 in cfg.snapshots ==> r.seqno > 0)
      && forall s | s in live && s !in cfg.snapshots :: r.seqno <= s
  }

  ghost predicate JobOk(levels: Levels, c: Compaction, data: Contents, cfg: I.Config, live: set<nat>) {
    && Usual(c) && c.output < |levels| && cfg.Valid() && cfg.compaction.Some?
    && KnowsBelow(levels, c, data, cfg.compaction.value) && Timely(levels, c, data, cfg, live)
  }

  ghost predicate Descending(st: Store, data: Contents) {
    forall k :: R.History(Versions(st, data, k), k)
  }

  ghost predicate Logged(st: Store, data: Contents) {
    forall r | r in All(st, data) :: From(st.log, r)
  }

  ghost predicate TablesOk(tables: seq<seq<R.Record>>) {
    && (forall i | 0 <= i < |tables| :: R.Sorted(tables[i]))
    && forall r | r in Join(tables) :: r.seqno > 0
  }

  ghost predicate LiveOk(st: Store, data: Contents) {
    && (forall s | s in st.live :: s <= Last(st.log))
    && (0 in st.live ==> forall r | r in All(st, data) :: r.seqno > 0)
  }

  ghost predicate JobsOk(st: Store, data: Contents) {
    && st.jobs.Keys == st.running.Keys
    && forall id | id in st.running :: id in st.jobs && JobOk(st.levels, st.running[id], data, st.jobs[id], st.live)
  }

  ghost predicate Ok(st: Store, data: Contents) {
    && st.levels != [] && st.tables != [] && LevelsOk(st.levels) && RunningOk(st.levels, st.running)
    && Stored(st.levels, data) && JobsOk(st, data)
    && TablesOk(st.tables) && LogOk(st.log) && Logged(st, data) && Descending(st, data) && LiveOk(st, data)
  }
}
