/** Every step of the database keeps what holds in its states. */
module DatabaseSteps {
  import opened LevelFiles
  import opened LevelState
  import opened LevelRecords
  import opened LevelJobs
  import opened LevelPlans
  import opened Database
  import R = Records
  import I = IteratorSpec
  import M = IteratorMeaning
  import O = IteratorOrder
  import T = IteratorTheorems
  import U = IteratorUse

  // ---- Versions of one key

  lemma HistorySplit(a: seq<R.Record>, b: seq<R.Record>, k: Key)
    requires R.History(a + b, k)
    ensures R.History(a, k) && R.History(b, k) && forall r, q | r in a && q in b :: r.seqno > q.seqno
  {
    var all := a + b;
    assert forall i | 0 <= i < |a| :: all[i] == a[i];
    assert forall i | 0 <= i < |b| :: all[|a| + i] == b[i];
    forall r, q | r in a && q in b ensures r.seqno > q.seqno {
      var i :| 0 <= i < |a| && a[i] == r;
      var j :| 0 <= j < |b| && b[j] == q;
      assert all[i].seqno > all[|a| + j].seqno;
    }
  }

  /** Versions that take the place of others: none is newer than one of those, and all are newer than what is below. */
  ghost predicate Replaces(g: seq<R.Record>, out: seq<R.Record>, d: seq<R.Record>) {
    forall q | q in out ::
      && (exists p | p in g :: q.seqno <= p.seqno)
      && (forall z | z in d :: z.seqno < q.seqno)
  }

  lemma ReplacedHistory(a: seq<R.Record>, g: seq<R.Record>, out: seq<R.Record>, d: seq<R.Record>, k: Key)
    requires R.History(a + g + d, k) && R.History(out, k) && Replaces(g, out, d)
    ensures R.History(a + out + d, k)
  {
    hide R.History;
    HistorySplit(a + g, d, k);
    HistorySplit(a, g, k);
    HistoryJoin(a, out, k);
    HistoryJoin(a + out, d, k);
  }

  lemma FromOlder(log: seq<R.Record>, p: R.Record, r: R.Record)
    requires From(log, p) && p.key == r.key && p.kind == r.kind && r.seqno <= p.seqno
    ensures From(log, r)
  {
  }

  // ---- A write

  lemma {:induction false} PutVersions(table: seq<R.Record>, r: R.Record, k: Key)
    requires R.Sorted(table) && forall q | q in table :: q.seqno < r.seqno
    ensures R.VersionsOf(Put(table, r), k) == (if r.key == k then [r] else []) + R.VersionsOf(table, k)
    decreases |table|
  {
    if table == [] || R.Before(r, table[0]) {
      R.VersionsOfConcat([r], table, k);
    } else {
      assert table[0] in table;
      PutVersions(table[1..], r, k);
      R.VersionsOfConcat([table[0]], Put(table[1..], r), k);
    }
  }

  lemma {:induction false} PutMembers(table: seq<R.Record>, r: R.Record)
    ensures forall q :: q in Put(table, r) <==> q == r || q in table
    decreases |table|
  {
    if table != [] && !R.Before(r, table[0]) {
      PutMembers(table[1..], r);
      assert table == [table[0]] + table[1..];
    }
  }

  lemma {:induction false} PutSorted(table: seq<R.Record>, r: R.Record)
    requires R.Sorted(table) && forall q | q in table :: q.seqno < r.seqno
    ensures R.Sorted(Put(table, r))
    decreases |table|
  {
    if table == [] {
    } else if R.Before(r, table[0]) {
      var all := [r] + table;
      forall i, j | 0 <= i < j < |all| ensures R.Before(all[i], all[j]) {
        assert all[j] == table[j - 1] && (i > 0 ==> all[i] == table[i - 1]);
      }
    } else {
      var rest := Put(table[1..], r);
      PutSorted(table[1..], r);
      PutMembers(table[1..], r);
      assert table[0] in table;
      var all := [table[0]] + rest;
      forall i, j | 0 <= i < j < |all| ensures R.Before(all[i], all[j]) {
        assert all[j] == rest[j - 1] && (i > 0 ==> all[i] == rest[i - 1]);
        assert rest[j - 1] in rest;
      }
    }
  }

  lemma NotNewer(st: Store, data: Contents, r: R.Record)
    requires LogOk(st.log) && Logged(st, data) && r in All(st, data)
    ensures r.seqno <= Last(st.log) && st.log != []
  {
    var w :| w in st.log && w.key == r.key && w.kind == r.kind && r.seqno <= w.seqno;
  }

  lemma TableOlder(st: Store, data: Contents, q: R.Record)
    requires LogOk(st.log) && Logged(st, data) && st.tables != [] && q in st.tables[0]
    ensures q.seqno <= Last(st.log)
  {
    assert q in Join(st.tables);
    NotNewer(st, data, q);
  }

  lemma FirstVersions(table: seq<R.Record>, table': seq<R.Record>, rest: seq<R.Record>, r: R.Record, k: Key)
    requires R.VersionsOf(table', k) == (if r.key == k then [r] else []) + R.VersionsOf(table, k)
    ensures R.VersionsOf(table' + rest, k) == (if r.key == k then [r] else []) + R.VersionsOf(table + rest, k)
  {
    R.VersionsOfConcat(table, rest, k);
    R.VersionsOfConcat(table', rest, k);
  }

  lemma AllFirst(st: Store, data: Contents)
    requires st.tables != []
    ensures All(st, data) == st.tables[0] + (Join(st.tables[1..]) + RecordsOf(FilesOf(st.levels), data))
  {
  }

  /** A write is the newest version of its key. */
  lemma WriteVersions(st: Store, data: Contents, r: R.Record, k: Key)
    requires Ok(st, data) && Last(st.log) < r.seqno <= R.MAX_SEQ
    ensures Versions(Written(st, r), data, k) == (if r.key == k then [r] else []) + Versions(st, data, k)
  {
    hide LevelsOk, RunningOk, Stored, JobsOk, Descending, LiveOk, Logged, LogOk, R.VersionsOf, Put, Join, All,
         RecordsOf;
    var table, rest, files := st.tables[0], Join(st.tables[1..]), RecordsOf(FilesOf(st.levels), data);
    forall q | q in table ensures q.seqno < r.seqno {
      TableOlder(st, data, q);
    }
    PutVersions(table, r, k);
    FirstVersions(table, Put(table, r), rest + files, r, k);
    AllFirst(st, data);
    AllFirst(Written(st, r), data);
    assert Written(st, r).tables[1..] == st.tables[1..];
  }

  lemma WriteRecords(st: Store, data: Contents, r: R.Record, q: R.Record)
    requires st.tables != []
    ensures q in All(Written(st, r), data) <==> q == r || q in All(st, data)
  {
    var st' := Written(st, r);
    assert st'.tables[1..] == st.tables[1..];
    PutMembers(st.tables[0], r);
  }

  lemma WriteTables(st: Store, data: Contents, r: R.Record)
    requires Ok(st, data) && Last(st.log) < r.seqno <= R.MAX_SEQ
    ensures TablesOk(Written(st, r).tables)
  {
    hide LevelsOk, RunningOk, Stored, JobsOk, Descending, LiveOk;
    var st' := Written(st, r);
    forall q | q in st.tables[0] ensures q.seqno < r.seqno {
      TableOlder(st, data, q);
    }
    PutSorted(st.tables[0], r);
    PutMembers(st.tables[0], r);
    forall i | 0 <= i < |st'.tables| ensures R.Sorted(st'.tables[i]) {
      assert i > 0 ==> st'.tables[i] == st.tables[i];
    }
    assert st'.tables[1..] == st.tables[1..];
  }

  lemma WriteStep(st: Store, data: Contents, r: R.Record)
    requires Ok(st, data) && Last(st.log) < r.seqno <= R.MAX_SEQ
    ensures Ok(Written(st, r), data)
  {
    hide LevelsOk, RunningOk, Stored, KnowsBelow, Timely, TablesOk, R.History;
    var st' := Written(st, r);
    WriteTables(st, data, r);
    forall q | q in All(st', data) ensures From(st'.log, q) && (0 in st.live ==> q.seqno > 0) {
      WriteRecords(st, data, r, q);
      if q != r {
        FromMore(st.log, r, q);
      }
    }
    forall k ensures R.History(Versions(st', data, k), k) {
      WriteHistory(st, data, r, k);
    }
    LogMore(st.log, r);
  }

  lemma FromMore(log: seq<R.Record>, r: R.Record, q: R.Record)
    requires From(log, q)
    ensures From([r] + log, q)
  {
    var w :| w in log && w.key == q.key && w.kind == q.kind && q.seqno <= w.seqno;
    assert w in [r] + log;
  }

  lemma LogMore(log: seq<R.Record>, r: R.Record)
    requires LogOk(log) && Last(log) < r.seqno <= R.MAX_SEQ
    ensures LogOk([r] + log)
  {
  }

  lemma WriteHistory(st: Store, data: Contents, r: R.Record, k: Key)
    requires Ok(st, data) && Last(st.log) < r.seqno <= R.MAX_SEQ
    ensures R.History(Versions(Written(st, r), data, k), k)
  {
    hide LevelsOk, RunningOk, Stored, JobsOk, TablesOk, LogOk, Logged, LiveOk, All, Put, R.VersionsOf;
    WriteVersions(st, data, r, k);
    if r.key == k {
      var old' := Versions(st, data, k);
      forall q | q in old' ensures q.seqno < r.seqno {
        VersionIn(All(st, data), k, q);
        NotNewer(st, data, q);
      }
      HistoryJoin([r], old', k);
    } else {
      assert [] + Versions(st, data, k) == Versions(st, data, k);
    }
  }

  // ---- Flushes and completions put output versions in the place of input versions

  /** For key `k` the iterator ran over the versions between `a` and `d`. */
  ghost predicate Rewrites(st: Store, st': Store, data: Contents, cfg: I.Config, input: seq<R.Record>, k: Key,
      a: seq<R.Record>, d: seq<R.Record>)
  {
    && Versions(st, data, k) == a + R.VersionsOf(input, k) + d
    && Versions(st', data, k) == a + R.VersionsOf(I.Compact(cfg, input), k) + d
    && cfg.Valid() && R.Sorted(input) && M.Bounded(input) && R.VersionsOf(d, k) == d
    && (R.VersionsOf(input, k) != [] ==> T.Placed(cfg, input, d, k))
    && U.ZeroUnused(cfg, R.VersionsOf(input, k)) && (forall s | s in st.live :: Reader(cfg, input, s))
    && st'.log == st.log && st'.live == st.live
  }

  lemma RewriteHistory(st: Store, st': Store, data: Contents, cfg: I.Config, input: seq<R.Record>, k: Key,
          a: seq<R.Record>, d: seq<R.Record>)
    requires Rewrites(st, st', data, cfg, input, k, a, d) && R.History(Versions(st, data, k), k)
    ensures R.History(Versions(st', data, k), k)
  {
    hide I.Compact, R.VersionsOf, R.History, T.Placed, Versions, U.ZeroUnused, Reader;
    var g, out := R.VersionsOf(input, k), R.VersionsOf(I.Compact(cfg, input), k);
    if g == [] {
      NothingRead(cfg, input, k, 0);
    } else {
      O.CompactionSorted(cfg, input);
      VersionsSorted(I.Compact(cfg, input), k);
      HistorySplit(a + g, d, k);
      HistorySplit(a, g, k);
      T.PlacedStack(cfg, input, d, k);
      forall q | q in out
        ensures exists p | p in g :: q.seqno <= p.seqno
        ensures forall z | z in d :: z.seqno < q.seqno
      {
        var p := OutputVersion(cfg, input, k, q);
      }
      ReplacedHistory(a, g, out, d, k);
    }
  }

  lemma OutputVersion(cfg: I.Config, input: seq<R.Record>, k: Key, q: R.Record) returns (p: R.Record)
    requires q in R.VersionsOf(I.Compact(cfg, input), k)
    ensures p in R.VersionsOf(input, k) && p.key == k && p.kind == q.kind && q.seqno <= p.seqno
    ensures q.seqno != p.seqno ==> cfg.compaction.Some? && cfg.compaction.value.AbsentBeyond(k)
  {
    hide I.Compact, R.VersionsOf;
    VersionIn(I.Compact(cfg, input), k, q);
    p := OutputRecord(cfg, input, q);
    VersionIn(input, k, p);
  }

  // ---- A flush

  lemma {:induction false} JoinSplit(a: seq<seq<R.Record>>, b: seq<seq<R.Record>>)
    ensures Join(a + b) == Join(a) + Join(b)
    decreases |a|
  {
    if a == [] {
      assert a + b == b;
    } else {
      assert (a + b)[1..] == a[1..] + b;
      JoinSplit(a[1..], b);
    }
  }

  lemma FlushedRecords(levels: Levels, added: seq<File>, data: Contents)
    requires levels != [] && |added| <= 1
    ensures var levels' := if added == [] then levels else levels[0 := [added[0]] + levels[0]];
            && FilesOf(levels') == added + FilesOf(levels)
            && RecordsOf(FilesOf(levels'), data) == RecordsOf(added, data) + RecordsOf(FilesOf(levels), data)
  {
    if added != [] {
      assert added == [added[0]];
      assert levels[0 := [added[0]] + levels[0]][1..] == levels[1..];
      assert FilesOf(levels[0 := [added[0]] + levels[0]]) == added + FilesOf(levels);
    } else {
      assert added + FilesOf(levels) == FilesOf(levels);
    }
    RecordsJoin(added, FilesOf(levels), data);
  }

  lemma TablesVersions(st: Store, data: Contents, m: nat, k: Key)
    requires m <= |st.tables|
    ensures Versions(st, data, k) ==
            R.VersionsOf(Join(st.tables[..m]), k) + R.VersionsOf(Join(st.tables[m..]), k)
            + R.VersionsOf(RecordsOf(FilesOf(st.levels), data), k)
  {
    hide R.VersionsOf, Join, RecordsOf;
    JoinSplit(st.tables[..m], st.tables[m..]);
    assert st.tables == st.tables[..m] + st.tables[m..];
    R.VersionsOfConcat(Join(st.tables), RecordsOf(FilesOf(st.levels), data), k);
    R.VersionsOfConcat(Join(st.tables[..m]), Join(st.tables[m..]), k);
  }

  lemma FlushedVersions(st: Store, data: Contents, m: nat, added: seq<File>, k: Key)
    requires m <= |st.tables| && st.levels != [] && |added| <= 1
    ensures Versions(Flushed(st, m, added), data, k) ==
            R.VersionsOf(Join(st.tables[..m]), k) + R.VersionsOf(RecordsOf(added, data), k)
            + R.VersionsOf(RecordsOf(FilesOf(st.levels), data), k)
  {
    hide R.VersionsOf, Join, RecordsOf;
    FlushedRecords(st.levels, added, data);
    var files, new' := RecordsOf(FilesOf(st.levels), data), RecordsOf(added, data);
    R.VersionsOfConcat(Join(st.tables[..m]), new' + files, k);
    R.VersionsOfConcat(new', files, k);
  }

  /** The merged memtables hold the versions of each key in order. */
  lemma MergedVersions(input: seq<R.Record>, recs: seq<R.Record>, k: Key)
    requires Merges(input, recs) && R.History(R.VersionsOf(recs, k), k)
    ensures R.VersionsOf(input, k) == R.VersionsOf(recs, k)
  {
    VersionsSorted(input, k);
    forall r ensures r in R.VersionsOf(input, k) <==> r in R.VersionsOf(recs, k) {
      VersionIn(input, k, r);
      VersionIn(recs, k, r);
    }
    SameHistory(R.VersionsOf(input, k), R.VersionsOf(recs, k), k);
  }

  lemma TablesRecord(st: Store, data: Contents, m: nat, r: R.Record)
    requires Ok(st, data) && m <= |st.tables| && r in Join(st.tables[m..])
    ensures r in Join(st.tables) && r in All(st, data) && 0 < r.seqno <= R.MAX_SEQ
  {
    hide LevelsOk, RunningOk, Stored, JobsOk, Descending, LiveOk;
    JoinSplit(st.tables[..m], st.tables[m..]);
    assert st.tables == st.tables[..m] + st.tables[m..];
    NotNewer(st, data, r);
  }

  /** Nothing is dropped by a check for deeper levels, so it is enough that what is stored is older. */
  lemma FlushPlaced(cfg: I.Config, input: seq<R.Record>, d: seq<R.Record>, k: Key)
    requires cfg.Valid() && cfg.compaction.None? && R.Sorted(input) && M.Bounded(input) && R.History(d, k)
    requires forall r, q | r in R.VersionsOf(input, k) && q in d :: r.seqno > q.seqno
    ensures T.Placed(cfg, input, d, k) && R.VersionsOf(d, k) == d
  {
    R.VersionsOfAll(d, k);
  }

  lemma MergedInput(st: Store, data: Contents, m: nat, input: seq<R.Record>)
    requires Ok(st, data) && m <= |st.tables| && Merges(input, Join(st.tables[m..]))
    ensures forall r | r in input :: r in Join(st.tables) && r in All(st, data) && 0 < r.seqno <= R.MAX_SEQ
    ensures R.Sorted(input) && M.Bounded(input)
  {
    hide Ok, Join, All;
    forall r | r in input ensures r in Join(st.tables) && r in All(st, data) && 0 < r.seqno <= R.MAX_SEQ {
      TablesRecord(st, data, m, r);
    }
    forall i | 0 <= i < |input| ensures input[i].seqno <= R.MAX_SEQ {
      assert input[i] in input;
    }
  }

  lemma UnusedInput(cfg: I.Config, input: seq<R.Record>, k: Key)
    requires forall r | r in input :: r.seqno > 0
    ensures U.ZeroUnused(cfg, R.VersionsOf(input, k))
  {
    forall r | r in R.VersionsOf(input, k) ensures r.seqno > 0 {
      VersionIn(input, k, r);
    }
  }

  lemma FlushRewrites(st: Store, data: Contents, m: nat, cfg: I.Config, input: seq<R.Record>, added: seq<File>, k: Key)
    requires Ok(st, data) && CanFlush(st, data, m, cfg, input, added)
    ensures Rewrites(st, Flushed(st, m, added), data, cfg, input, k,
                     R.VersionsOf(Join(st.tables[..m]), k), R.VersionsOf(RecordsOf(FilesOf(st.levels), data), k))
  {
    hide LevelsOk, RunningOk, Stored, JobsOk, TablesOk, LogOk, Logged, LiveOk, Versions, R.VersionsOf, I.Compact;
    hide Merges, Fresh, RangesOk, AllHold, Reader, T.Placed, U.ZeroUnused, R.History, R.Sorted, M.Bounded, Join,
         RecordsOf;
    var a, d := R.VersionsOf(Join(st.tables[..m]), k), R.VersionsOf(RecordsOf(FilesOf(st.levels), data), k);
    var recs := Join(st.tables[m..]);
    MergedInput(st, data, m, input);
    UnusedInput(cfg, input, k);
    TablesVersions(st, data, m, k);
    FlushedVersions(st, data, m, added, k);
    HistorySplit(a + R.VersionsOf(recs, k), d, k);
    HistorySplit(a, R.VersionsOf(recs, k), k);
    MergedVersions(input, recs, k);
    FlushPlaced(cfg, input, d, k);
  }

  /** A flush changes no sequence number. */
  lemma FlushedFrom(st: Store, data: Contents, m: nat, cfg: I.Config, input: seq<R.Record>, added: seq<File>,
          r: R.Record)
    returns (p: R.Record)
    requires Ok(st, data) && CanFlush(st, data, m, cfg, input, added)
    requires st.levels != [] && r in All(Flushed(st, m, added), data)
    ensures p in All(st, data) && p.key == r.key && p.kind == r.kind && p.seqno == r.seqno
    ensures r in RecordsOf(added, data) ==> r.seqno <= R.MAX_SEQ
  {
    hide Ok, I.Compact, Merges, RecordsOf, All, AllHold, Fresh, R.Sorted, M.Bounded;
    FlushedParts(st, data, m, added, r);
    MergedInput(st, data, m, input);
    if r in RecordsOf(added, data) {
      p := OutputRecord(cfg, input, r);
    } else {
      p := r;
    }
  }

  lemma FlushedParts(st: Store, data: Contents, m: nat, added: seq<File>, r: R.Record)
    requires m <= |st.tables| && st.levels != [] && |added| <= 1 && r in All(Flushed(st, m, added), data)
    ensures r in All(st, data) || r in RecordsOf(added, data)
  {
    hide RecordsOf, Join;
    FlushedRecords(st.levels, added, data);
    JoinSplit(st.tables[..m], st.tables[m..]);
    assert st.tables == st.tables[..m] + st.tables[m..];
  }

  lemma FlushNewer(st: Store, data: Contents, m: nat, cfg: I.Config, input: seq<R.Record>, added: seq<File>)
    requires Ok(st, data) && CanFlush(st, data, m, cfg, input, added)
    ensures Newer(added, FilesOf(st.levels), data)
  {
    hide LevelsOk, RunningOk, Stored, JobsOk, LiveOk, TablesOk, LogOk, Logged, I.Compact, Merges, RecordsOf, Rewrites;
    forall q, z | q in RecordsOf(added, data) && z in RecordsOf(FilesOf(st.levels), data) && q.key == z.key
      ensures q.seqno > z.seqno
    {
      var k := q.key;
      var a, d := R.VersionsOf(Join(st.tables[..m]), k), R.VersionsOf(RecordsOf(FilesOf(st.levels), data), k);
      var out := R.VersionsOf(RecordsOf(added, data), k);
      FlushRewrites(st, data, m, cfg, input, added, k);
      RewriteHistory(st, Flushed(st, m, added), data, cfg, input, k, a, d);
      FlushedVersions(st, data, m, added, k);
      HistorySplit(a + out, d, k);
      VersionIn(RecordsOf(added, data), k, q);
      VersionIn(RecordsOf(FilesOf(st.levels), data), k, z);
    }
  }

  lemma FlushStored(st: Store, data: Contents, m: nat, cfg: I.Config, input: seq<R.Record>, added: seq<File>)
    requires Ok(st, data) && CanFlush(st, data, m, cfg, input, added)
    ensures Stored(Flushed(st, m, added).levels, data)
  {
    hide LevelsOk, RunningOk, JobsOk, LiveOk, TablesOk, LogOk, Logged, Descending, I.Compact, Merges, RecordsOf,
         InOrder;
    var files := FilesOf(st.levels);
    FlushNewer(st, data, m, cfg, input, added);
    FlushedRecords(st.levels, added, data);
    FewInOrder(added, data);
    OrderSplit(added, files, data);
    forall r | r in RecordsOf(added, data) ensures r.seqno <= R.MAX_SEQ {
      var p := FlushedFrom(st, data, m, cfg, input, added, r);
    }
  }

  lemma FewInOrder(added: seq<File>, data: Contents)
    requires |added| <= 1
    ensures InOrder(added, data)
  {
  }

  lemma FlushJobs(st: Store, data: Contents, f: File, id: nat)
    requires Ok(st, data) && !Present(st.levels, f.number) && id in st.running
    ensures id in st.jobs
    ensures JobOk(st.levels[0 := [f] + st.levels[0]], st.running[id], data, st.jobs[id], st.live)
  {
    hide LevelsOk, Stored, LiveOk, TablesOk, LogOk, Logged, Descending, KnowsBelow, Standing;
    var d := st.running[id];
    FlushKnows(st.levels, f, d, data, st.jobs[id].compaction.value);
    NewFileOther(st.levels, f, d);
    var levels' := st.levels[0 := [f] + st.levels[0]];
    forall l: nat, g | IsFile(levels', l, g) && g.number in d.inputs ensures IsFile(st.levels, l, g) {
    }
  }

  lemma FlushStep(st: Store, data: Contents, m: nat, cfg: I.Config, input: seq<R.Record>, added: seq<File>)
    requires Ok(st, data) && CanFlush(st, data, m, cfg, input, added)
    ensures Ok(Flushed(st, m, added), data)
  {
    hide LevelsOk, RunningOk, Stored, JobOk, LogOk, Merges, RecordsOf, R.History, Rewrites, Versions, AllHold,
         I.Compact;
    var st' := Flushed(st, m, added);
    FlushStored(st, data, m, cfg, input, added);
    JoinSplit(st.tables[..m], st.tables[m..]);
    assert st.tables == st.tables[..m] + st.tables[m..];
    if added != [] {
      assert added[0] in added;
      FlushOk(st.levels, st.running, added[0]);
      forall id | id in st.running ensures JobOk(st'.levels, st.running[id], data, st.jobs[id], st.live) {
        FlushJobs(st, data, added[0], id);
      }
    }
    forall r | r in All(st', data) ensures From(st.log, r) && (0 in st.live ==> r.seqno > 0) {
      var p := FlushedFrom(st, data, m, cfg, input, added, r);
      FromOlder(st.log, p, r);
    }
    forall k ensures R.History(Versions(st', data, k), k) {
      FlushRewrites(st, data, m, cfg, input, added, k);
      RewriteHistory(st, st', data, cfg, input, k, R.VersionsOf(Join(st.tables[..m]), k),
                     R.VersionsOf(RecordsOf(FilesOf(st.levels), data), k));
    }
  }
}
