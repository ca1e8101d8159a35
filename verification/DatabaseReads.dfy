/** Every live snapshot reads what was written: over every run of writes, flushes, compactions and snapshots. */
module DatabaseReads {
  import opened LevelFiles
  import opened LevelState
  import opened LevelRecords
  import opened LevelJobs
  import opened LevelReads
  import opened Database
  import opened DatabaseSteps
  import opened DatabaseCompactions
  import R = Records
  import S = Snapshots
  import I = IteratorSpec
  import Q = IteratorGuards
  import M = IteratorMeaning
  import Z = IteratorZero
  import T = IteratorTheorems
  import U = IteratorUse

  /** The key was never deleted by a single delete, or its puts and single deletes take turns. */
  ghost predicate UsedAsDocumented(log: seq<R.Record>, k: Key) {
    M.NoSingleDelete(R.VersionsOf(log, k)) || M.Alternating(R.VersionsOf(log, k))
  }

  /** Live snapshots and the tip find the newest write that is not after them. */
  ghost predicate Faithful(st: Store, data: Contents, k: Key) {
    forall s | s in st.live || s == R.MAX_SEQ :: R.Read(Versions(st, data, k), [], k, s) == R.Read(st.log, [], k, s)
  }

  ghost predicate KeyOk(st: Store, data: Contents, k: Key) {
    && (UsedAsDocumented(st.log, k) ==> Faithful(st, data, k))
    && (M.Alternating(R.VersionsOf(st.log, k)) ==>
          M.Alternating(Versions(st, data, k)) && U.SameHead(Versions(st, data, k), R.VersionsOf(st.log, k)))
  }

  // ---- Where the iterator ran

  lemma AlternatingSuffix(a: seq<R.Record>, b: seq<R.Record>)
    requires M.Alternating(a + b)
    ensures M.Alternating(b)
  {
    var all := a + b;
    assert forall i | 0 <= i < |b| :: b[i] == all[|a| + i];
    forall i | 0 <= i < |b| - 1 ensures b[i].kind != b[i + 1].kind {
      assert all[|a| + i].kind != all[|a| + i + 1].kind;
    }
  }

  lemma {:induction false} AlternatingJoin(a: seq<R.Record>, x: seq<R.Record>, y: seq<R.Record>)
    requires M.Alternating(a + y) && M.Alternating(x) && U.SameHead(x, y)
    ensures M.Alternating(a + x) && U.SameHead(a + x, a + y)
    decreases |a|
  {
    if a == [] {
      assert a + x == x && a + y == y;
    } else {
      assert a + y == [a[0]] + (a[1..] + y) && a + x == [a[0]] + (a[1..] + x);
      AlternatingSuffix([a[0]], a[1..] + y);
      AlternatingJoin(a[1..], x, y);
      U.Grow(a[0], a[1..] + x, a[0], a[1..] + y);
    }
  }

  lemma VersionsLogged(st: Store, data: Contents, k: Key, r: R.Record)
    requires Logged(st, data) && r in Versions(st, data, k) && M.NoSingleDelete(R.VersionsOf(st.log, k))
    ensures !r.kind.SingleDeletion?
  {
    VersionIn(All(st, data), k, r);
    var w :| w in st.log && w.key == r.key && w.kind == r.kind && r.seqno <= w.seqno;
    VersionIn(st.log, k, w);
  }

  lemma RewriteUsed(st: Store, st': Store, data: Contents, cfg: I.Config, input: seq<R.Record>, k: Key,
          a: seq<R.Record>, d: seq<R.Record>)
    requires Rewrites(st, st', data, cfg, input, k, a, d) && Logged(st, data) && KeyOk(st, data, k)
    requires UsedAsDocumented(st.log, k)
    ensures T.WellUsed(input, d, k)
  {
    hide R.VersionsOf, Versions, Logged, I.Compact, T.Placed, Faithful;
    var g := R.VersionsOf(input, k);
    if M.NoSingleDelete(R.VersionsOf(st.log, k)) {
      forall i | 0 <= i < |g| ensures !g[i].kind.SingleDeletion? {
        assert g[i] in Versions(st, data, k);
        VersionsLogged(st, data, k, g[i]);
      }
    } else {
      assert a + g + d == a + (g + d);
      AlternatingSuffix(a, g + d);
    }
  }

  /** The guards let the iterator run over the versions of the key without a trace. */
  ghost predicate Harmless(cfg: I.Config, input: seq<R.Record>, d: seq<R.Record>, k: Key) {
    Z.Safe(cfg, R.VersionsOf(input, k), d, Q.EnoughFor(cfg, input, k))
  }

  lemma RewriteReads(st: Store, st': Store, data: Contents, cfg: I.Config, input: seq<R.Record>, k: Key,
          a: seq<R.Record>, d: seq<R.Record>, s: nat)
    requires Rewrites(st, st', data, cfg, input, k, a, d) && R.VersionsOf(input, k) != []
    ensures R.Read(Versions(st, data, k), [], k, s) ==
            if R.Newest(a, k, s).Some? then R.Seen(R.Newest(a, k, s).value) else R.Read(input, d, k, s)
    ensures R.Read(Versions(st', data, k), [], k, s) ==
            if R.Newest(a, k, s).Some? then R.Seen(R.Newest(a, k, s).value) else R.Read(I.Compact(cfg, input), d, k, s)
  {
    hide R.VersionsOf, R.Read, Versions, I.Compact, T.Placed;
    R.ReadOfVersions(input, d, k, s);
    R.ReadOfVersions(I.Compact(cfg, input), d, k, s);
    ReadAbove(a, R.VersionsOf(input, k), d, k, s);
    ReadAbove(a, R.VersionsOf(I.Compact(cfg, input), k), d, k, s);
  }

  lemma RewriteFaithful(st: Store, st': Store, data: Contents, cfg: I.Config, input: seq<R.Record>, k: Key,
          a: seq<R.Record>, d: seq<R.Record>)
    requires Rewrites(st, st', data, cfg, input, k, a, d) && Faithful(st, data, k) && Harmless(cfg, input, d, k)
    ensures Faithful(st', data, k)
  {
    hide R.VersionsOf, R.Read, Versions, I.Compact, T.Placed, Z.Safe;
    if R.VersionsOf(input, k) == [] {
      NothingRead(cfg, input, k, 0);
    } else {
      forall s | s in st.live || s == R.MAX_SEQ
        ensures R.Read(Versions(st', data, k), [], k, s) == R.Read(st.log, [], k, s)
      {
        RewriteReads(st, st', data, cfg, input, k, a, d, s);
        KeptForReader(cfg, input, d, k, s);
      }
    }
  }

  /** The condition is exact for the newest versions of a key, while the snapshots of the job live. */
  lemma RewriteExactly(st: Store, st': Store, data: Contents, cfg: I.Config, input: seq<R.Record>, k: Key,
          d: seq<R.Record>)
    requires Rewrites(st, st', data, cfg, input, k, [], d) && Faithful(st, data, k) && R.VersionsOf(input, k) != []
    requires forall s | s in cfg.snapshots :: s in st.live
    ensures Faithful(st', data, k) <==> Harmless(cfg, input, d, k)
  {
    if Faithful(st', data, k) {
      forall s | S.ReadPoint(cfg.snapshots, s)
        ensures R.Read(I.Compact(cfg, input), d, k, s) == R.Read(input, d, k, s)
      {
        RewriteReads(st, st', data, cfg, input, k, [], d, s);
      }
      T.ReadsKeptExactly(cfg, input, d, k);
    }
    if Harmless(cfg, input, d, k) {
      RewriteFaithful(st, st', data, cfg, input, k, [], d);
    }
  }

  lemma RewriteKeyOk(st: Store, st': Store, data: Contents, cfg: I.Config, input: seq<R.Record>, k: Key,
          a: seq<R.Record>, d: seq<R.Record>)
    requires Rewrites(st, st', data, cfg, input, k, a, d) && Logged(st, data) && KeyOk(st, data, k)
    ensures KeyOk(st', data, k)
  {
    hide R.VersionsOf, R.Read, Versions, Logged, I.Compact, T.Placed, M.Alternating, UsedAsDocumented, Faithful;
    var g, out, log := R.VersionsOf(input, k), R.VersionsOf(I.Compact(cfg, input), k), R.VersionsOf(st.log, k);
    if UsedAsDocumented(st.log, k) {
      RewriteUsed(st, st', data, cfg, input, k, a, d);
      UsedHarmless(cfg, input, d, k);
      RewriteFaithful(st, st', data, cfg, input, k, a, d);
    }
    if g == [] {
      NothingRead(cfg, input, k, 0);
    } else if M.Alternating(log) {
      assert a + g + d == a + (g + d) && a + out + d == a + (out + d);
      AlternatingSuffix(a, g + d);
      U.CompactionAlternates(cfg, input, d, k);
      AlternatingJoin(a, out + d, g + d);
    }
  }

  lemma UsedHarmless(cfg: I.Config, input: seq<R.Record>, d: seq<R.Record>, k: Key)
    requires R.VersionsOf(input, k) != [] ==> T.Placed(cfg, input, d, k)
    requires R.VersionsOf(d, k) == d && U.ZeroUnused(cfg, R.VersionsOf(input, k)) && T.WellUsed(input, d, k)
    ensures Harmless(cfg, input, d, k)
  {
    hide R.VersionsOf, Z.Safe, T.Placed, T.WellUsed;
    if R.VersionsOf(input, k) == [] {
      T.NoneSafe(cfg, d, Q.EnoughFor(cfg, input, k));
    } else {
      U.UsedSafe(cfg, input, d, k);
    }
  }

  // ---- The other steps

  lemma WriteFaithful(st: Store, data: Contents, r: R.Record, k: Key)
    requires Ok(st, data) && Last(st.log) < r.seqno <= R.MAX_SEQ && Faithful(st, data, k)
    ensures Faithful(Written(st, r), data, k)
  {
    hide LevelsOk, RunningOk, Stored, JobsOk, TablesOk, LogOk, Logged, Descending, LiveOk, Put, Versions, R.Read;
    WriteVersions(st, data, r, k);
    var st' := Written(st, r);
    forall s | s in st.live || s == R.MAX_SEQ
      ensures R.Read(Versions(st', data, k), [], k, s) == R.Read(st'.log, [], k, s)
    {
      ReadHead(Versions(st, data, k), st.log, r, k, s);
    }
  }

  lemma WriteKeyOk(st: Store, data: Contents, r: R.Record, k: Key)
    requires Ok(st, data) && Last(st.log) < r.seqno <= R.MAX_SEQ && KeyOk(st, data, k)
    ensures KeyOk(Written(st, r), data, k)
  {
    hide LevelsOk, RunningOk, Stored, JobsOk, TablesOk, LogOk, Logged, Descending, LiveOk, Put, Versions, R.VersionsOf;
    hide M.Alternating, UsedAsDocumented, U.SameHead, Faithful;
    WriteVersions(st, data, r, k);
    LogVersions(st.log, r, k);
    var st' := Written(st, r);
    if UsedAsDocumented(st'.log, k) {
      UsedBefore(st.log, r, k);
      WriteFaithful(st, data, r, k);
    }
    if M.Alternating(R.VersionsOf(st'.log, k)) {
      AlternatingSuffix(if r.key == k then [r] else [], R.VersionsOf(st.log, k));
      AlternatingHead(Versions(st, data, k), R.VersionsOf(st.log, k), r, k);
    }
  }

  lemma LogVersions(log: seq<R.Record>, r: R.Record, k: Key)
    ensures R.VersionsOf([r] + log, k) == (if r.key == k then [r] else []) + R.VersionsOf(log, k)
  {
    R.VersionsOfConcat([r], log, k);
  }

  lemma ReadHead(all: seq<R.Record>, log: seq<R.Record>, r: R.Record, k: Key, s: nat)
    requires R.Read(all, [], k, s) == R.Read(log, [], k, s)
    ensures R.Read((if r.key == k then [r] else []) + all, [], k, s) == R.Read([r] + log, [], k, s)
  {
    NewestJoin(if r.key == k then [r] else [], all, k, s);
    NewestJoin([r], log, k, s);
  }

  lemma AlternatingHead(all: seq<R.Record>, log: seq<R.Record>, r: R.Record, k: Key)
    requires M.Alternating(all) && U.SameHead(all, log) && M.Alternating((if r.key == k then [r] else []) + log)
    ensures M.Alternating((if r.key == k then [r] else []) + all)
    ensures U.SameHead((if r.key == k then [r] else []) + all, (if r.key == k then [r] else []) + log)
  {
    if r.key == k {
      U.Grow(r, all, r, log);
    } else {
      assert [] + all == all && [] + log == log;
    }
  }

  lemma UsedBefore(log: seq<R.Record>, r: R.Record, k: Key)
    requires UsedAsDocumented([r] + log, k)
    ensures UsedAsDocumented(log, k)
  {
    R.VersionsOfConcat([r], log, k);
    var all := R.VersionsOf([r] + log, k);
    if M.Alternating(all) {
      AlternatingSuffix(R.VersionsOf([r], k), R.VersionsOf(log, k));
    } else {
      var v, w := R.VersionsOf([r], k), R.VersionsOf(log, k);
      assert forall i | 0 <= i < |w| :: w[i] == all[|v| + i];
    }
  }

  lemma TakeFaithful(st: Store, data: Contents, k: Key)
    requires Ok(st, data) && Faithful(st, data, k)
    ensures Faithful(st.(live := st.live + {Last(st.log)}), data, k)
  {
    hide LevelsOk, RunningOk, Stored, JobsOk, TablesOk, Logged, Descending, LiveOk, All;
    hide R.Read;
    var st', t := st.(live := st.live + {Last(st.log)}), Last(st.log);
    SameAll(st, st', data);
    forall r | r in Versions(st, data, k) ensures r.seqno <= t && r.seqno <= R.MAX_SEQ {
      VersionIn(All(st, data), k, r);
      NotNewer(st, data, r);
    }
    ReadTip(Versions(st, data, k), k, t);
    forall w | w in st.log ensures w.seqno <= t && w.seqno <= R.MAX_SEQ {
      var i :| 0 <= i < |st.log| && st.log[i] == w;
    }
    ReadTip(st.log, k, t);
  }

  /** To read at or after the last write is to read at the tip. */
  lemma ReadTip(recs: seq<R.Record>, k: Key, t: nat)
    requires forall r | r in recs :: r.seqno <= t && r.seqno <= R.MAX_SEQ
    ensures R.Read(recs, [], k, t) == R.Read(recs, [], k, R.MAX_SEQ)
  {
    NewestOfAll(recs, k, t, R.MAX_SEQ);
  }

  lemma SameFaithful(st: Store, st': Store, data: Contents, k: Key)
    requires All(st', data) == All(st, data) && st'.log == st.log
    requires st'.live <= st.live && Faithful(st, data, k)
    ensures Faithful(st', data, k)
  {
  }

  /** The step, if it runs the iterator, is harmless for the key. */
  ghost predicate HarmlessStep(st: Store, data: Contents, a: Action, k: Key)
    requires Enabled(st, data, a)
  {
    match a
    case Flush(_, cfg, input, _) => Harmless(cfg, input, R.VersionsOf(RecordsOf(FilesOf(st.levels), data), k), k)
    case Finish(id, input, _) => Harmless(st.jobs[id], input, Deeper(st.levels, st.running[id], data, k), k)
    case _ => true
  }

  lemma StepFaithful(st: Store, data: Contents, a: Action, k: Key)
    requires Ok(st, data) && Enabled(st, data, a) && Faithful(st, data, k) && HarmlessStep(st, data, a, k)
    ensures Faithful(Next(st, data, a), data, k)
  {
    hide CanStart, CanBegin, Faithful, Rewrites, JobsOk, Stored, TablesOk, LogOk, Descending, LiveOk, Harmless;
    var st' := Next(st, data, a);
    match a
    case Write(r) => WriteFaithful(st, data, r, k);
    case Switch =>
      SwitchSame(st, data);
      SameFaithful(st, st', data, k);
    case Flush(m, cfg, input, added) =>
      FlushRewrites(st, data, m, cfg, input, added, k);
      RewriteFaithful(st, st', data, cfg, input, k, R.VersionsOf(Join(st.tables[..m]), k),
                      R.VersionsOf(RecordsOf(FilesOf(st.levels), data), k));
    case Finish(id, input, added) =>
      FinishRewrites(st, data, id, input, added, k);
      RewriteFaithful(st, st', data, st.jobs[id], input, k,
                      R.VersionsOf(Join(st.tables), k) + Staying(st.levels, st.running[id], data, k),
                      Deeper(st.levels, st.running[id], data, k));
    case Take => TakeFaithful(st, data, k);
    case _ => SameFaithful(st, st', data, k);
  }

  lemma StepKeyOk(st: Store, data: Contents, a: Action, k: Key)
    requires Ok(st, data) && Enabled(st, data, a) && KeyOk(st, data, k)
    ensures KeyOk(Next(st, data, a), data, k)
  {
    hide CanStart, CanBegin, Rewrites, JobsOk, Stored, TablesOk, LogOk, Descending, LiveOk, Faithful, UsedAsDocumented,
         Versions;
    hide KeyOk;
    var st' := Next(st, data, a);
    match a
    case Write(r) => WriteKeyOk(st, data, r, k);
    case Flush(m, cfg, input, added) =>
      FlushRewrites(st, data, m, cfg, input, added, k);
      RewriteKeyOk(st, st', data, cfg, input, k, R.VersionsOf(Join(st.tables[..m]), k),
                   R.VersionsOf(RecordsOf(FilesOf(st.levels), data), k));
    case Finish(id, input, added) =>
      FinishRewrites(st, data, id, input, added, k);
      RewriteKeyOk(st, st', data, st.jobs[id], input, k,
                   R.VersionsOf(Join(st.tables), k) + Staying(st.levels, st.running[id], data, k),
                   Deeper(st.levels, st.running[id], data, k));
    case _ => OtherKeyOk(st, data, a, k);
  }

  lemma OtherKeyOk(st: Store, data: Contents, a: Action, k: Key)
    requires Ok(st, data) && Enabled(st, data, a) && KeyOk(st, data, k) && !a.Write? && !a.Flush? && !a.Finish?
    ensures KeyOk(Next(st, data, a), data, k)
  {
    hide LevelsOk, RunningOk, Stored, JobsOk, TablesOk, LogOk, Logged, Descending, LiveOk;
    hide Faithful, All, UsedAsDocumented, CanStart, CanBegin;
    var st' := Next(st, data, a);
    if a.Switch? {
      SwitchSame(st, data);
    } else {
      SameAll(st, st', data);
    }
    if Faithful(st, data, k) {
      StepFaithful(st, data, a, k);
    }
  }

  lemma EmptyOk(n: nat, data: Contents, k: Key)
    requires n > 0
    ensures Ok(Empty(n), data) && KeyOk(Empty(n), data, k) && Faithful(Empty(n), data, k)
  {
    hide LevelsOk, RunningOk, Stored, JobsOk, TablesOk, LogOk, Logged, Descending, LiveOk, KeyOk, Faithful, FilesOf;
    EmptyLevels(n);
    NoFiles(Empty(n).levels, data);
    NothingStored(Empty(n).levels, data);
    NothingRuns(Empty(n), data);
    NothingWritten(Empty(n), data, k);
  }

  lemma NothingStored(levels: Levels, data: Contents)
    requires FilesOf(levels) == []
    ensures Stored(levels, data)
  {
  }

  lemma NothingRuns(st: Store, data: Contents)
    requires st.running == map[] && st.jobs == map[] && st.tables == [[]] && st.log == []
    ensures JobsOk(st, data) && TablesOk(st.tables) && LogOk(st.log) && Join(st.tables) == []
  {
    JoinNone();
  }

  lemma NothingWritten(st: Store, data: Contents, k: Key)
    requires Join(st.tables) == [] && FilesOf(st.levels) == [] && st.log == [] && st.live == {}
    ensures Logged(st, data) && Descending(st, data) && LiveOk(st, data) && KeyOk(st, data, k) && Faithful(st, data, k)
  {
    assert All(st, data) == [];
    hide All;
  }

  lemma JoinNone()
    ensures Join([[]]) == []
  {
    var tables: seq<seq<R.Record>> := [[]];
    assert tables[1..] == [] && Join(tables) == tables[0] + Join(tables[1..]);
  }

  lemma EmptyLevels(n: nat)
    requires n > 0
    ensures LevelsOk(Empty(n).levels) && RunningOk(Empty(n).levels, map[])
  {
  }

  lemma {:induction false} NoFiles(levels: Levels, data: Contents)
    requires forall l | 0 <= l < |levels| :: levels[l] == []
    ensures FilesOf(levels) == []
    decreases |levels|
  {
    if levels != [] {
      NoFiles(levels[1..], data);
    }
  }

  lemma {:induction false} RunOk(run: seq<Store>, actions: seq<Action>, data: Contents, i: nat, k: Key)
    requires IsRun(run, actions, data) && i < |run|
    ensures Ok(run[i], data) && KeyOk(run[i], data, k)
  {
    hide Ok, KeyOk, Steps;
    if i == 0 {
      var n: nat :| n > 0 && run[0] == Empty(n);
      EmptyOk(n, data, k);
    } else {
      RunOk(run, actions, data, i - 1, k);
      OneStep(run[i - 1], data, actions[i - 1], run[i], k);
    }
  }

  lemma OneStep(st: Store, data: Contents, a: Action, st': Store, k: Key)
    requires Ok(st, data) && KeyOk(st, data, k) && Steps(st, data, a, st')
    ensures Ok(st', data) && KeyOk(st', data, k)
  {
    hide Ok, KeyOk, Enabled;
    StepOk(st, data, a);
    StepKeyOk(st, data, a, k);
  }

  /** The promise of snapshots: whatever was written, flushed, picked and compacted, in whatever order, a read at a live
      snapshot or at the tip finds the newest write of the key that is not after it, for every key on which single
      deletes are used as documented. */
  lemma SnapshotsReadWhatWasWritten(run: seq<Store>, actions: seq<Action>, data: Contents, i: nat, k: Key, s: nat)
    requires IsRun(run, actions, data) && i < |run| && (s in run[i].live || s == R.MAX_SEQ)
    requires UsedAsDocumented(run[i].log, k)
    ensures View(run[i], data, k, s) == R.Read(run[i].log, [], k, s)
  {
    hide View, Versions, R.Read, UsedAsDocumented;
    RunOk(run, actions, data, i, k);
    ViewIsRead(run[i], data, k, s);
  }

  // ---- Snapshots are the past

  /** The records written by the actions, the newest first. */
  ghost function Writes(actions: seq<Action>): seq<R.Record> {
    if actions == [] then []
    else
      var last := actions[|actions| - 1];
      (if last.Write? then [last.r] else []) + Writes(actions[..|actions| - 1])
  }

  /** The log is what was written, with rising sequence numbers. */
  lemma {:induction false} LogIsWrites(run: seq<Store>, actions: seq<Action>, data: Contents, i: nat)
    requires IsRun(run, actions, data) && i < |run|
    ensures run[i].log == Writes(actions[..i])
  {
    hide CanFlush, CanStart, CanBegin, CanFinish, Flushed, Completed;
    if i > 0 {
      LogIsWrites(run, actions, data, i - 1);
      assert actions[..i][..i - 1] == actions[..i - 1];
      assert Steps(run[i - 1], data, actions[i - 1], run[i]);
      LogStep(run[i - 1], data, actions[i - 1], run[i]);
    }
  }

  lemma LogStep(st: Store, data: Contents, a: Action, st': Store)
    requires Steps(st, data, a, st')
    ensures st'.log == (if a.Write? then [a.r] else []) + st.log
    ensures a.Take? ==> Last(st.log) in st'.live
    ensures forall s | s in st.live && a != Release(s) :: s in st'.live
    ensures a.Release? ==> a.s !in st'.live
  {
    hide CanFlush, CanStart, CanBegin, CanFinish, Put, Finished;
  }

  /** A snapshot lives from the step that takes it until it is released. */
  lemma {:induction false} SnapshotLives(run: seq<Store>, actions: seq<Action>, data: Contents, j: nat, i: nat)
    requires IsRun(run, actions, data) && j < i < |run| && actions[j].Take?
    requires forall m | j < m < i :: actions[m] != Release(Last(run[j].log))
    ensures Last(run[j].log) in run[i].live
  {
    hide Steps;
    assert Steps(run[i - 1], data, actions[i - 1], run[i - 1 + 1]);
    LogStep(run[i - 1], data, actions[i - 1], run[i]);
    if j < i - 1 {
      SnapshotLives(run, actions, data, j, i - 1);
    }
  }

  /** What was written since state `j` comes before what was written until then, with higher sequence numbers. */
  lemma {:induction false} LogGrows(run: seq<Store>, actions: seq<Action>, data: Contents, j: nat, i: nat)
    returns (since: seq<R.Record>)
    requires IsRun(run, actions, data) && j <= i < |run|
    ensures run[i].log == since + run[j].log && forall r | r in since :: r.seqno > Last(run[j].log)
  {
    hide Steps;
    if j == i {
      since := [];
    } else {
      since := LogGrows(run, actions, data, j, i - 1);
      assert Steps(run[i - 1], data, actions[i - 1], run[i - 1 + 1]);
      LogStep(run[i - 1], data, actions[i - 1], run[i]);
      WriteLater(run[i - 1], data, actions[i - 1], run[i], since, run[j].log);
      if actions[i - 1].Write? {
        since := [actions[i - 1].r] + since;
      }
    }
  }

  lemma WriteLater(st: Store, data: Contents, a: Action, st': Store, since: seq<R.Record>, log: seq<R.Record>)
    requires Steps(st, data, a, st') && st.log == since + log && forall r | r in since :: r.seqno > Last(log)
    ensures a.Write? ==> a.r.seqno > Last(log)
  {
    if since != [] {
      assert since[0] in since && st.log[0] == since[0];
    }
  }

  /** Records above a snapshot are not seen through it. */
  lemma {:induction false} SkipsLater(since: seq<R.Record>, log: seq<R.Record>, k: Key, s: nat)
    requires forall r | r in since :: r.seqno > s
    ensures R.Newest(since + log, k, s) == R.Newest(log, k, s)
  {
    if since == [] {
      assert since + log == log;
    } else {
      assert since[0] in since && (since + log)[1..] == since[1..] + log;
      SkipsLater(since[1..], log, k, s);
    }
  }

  /** A snapshot is the past: whatever happens after it was taken, until it is released a read through it finds what a
      read at the tip would have found then. */
  lemma SnapshotIsThePast(run: seq<Store>, actions: seq<Action>, data: Contents, j: nat, i: nat, k: Key)
    requires IsRun(run, actions, data) && j < i < |run| && actions[j].Take?
    requires forall m | j < m < i :: actions[m] != Release(Last(run[j].log))
    requires UsedAsDocumented(run[i].log, k)
    ensures View(run[i], data, k, Last(run[j].log)) == View(run[j], data, k, R.MAX_SEQ)
    ensures View(run[j], data, k, R.MAX_SEQ) == R.Read(Writes(actions[..j]), [], k, R.MAX_SEQ)
  {
    hide View, UsedAsDocumented, IsRun;
    var s := Last(run[j].log);
    RunSizes(run, actions, data);
    SnapshotLives(run, actions, data, j, i);
    SnapshotsReadWhatWasWritten(run, actions, data, i, k, s);
    var since := LogGrows(run, actions, data, j, i);
    SkipsLater(since, run[j].log, k, s);
    UsedEarlier(since, run[j].log, k);
    SnapshotsReadWhatWasWritten(run, actions, data, j, k, R.MAX_SEQ);
    LogIsWrites(run, actions, data, j);
    RunOk(run, actions, data, j, k);
    TipOfLog(run[j], data, k);
  }

  lemma RunSizes(run: seq<Store>, actions: seq<Action>, data: Contents)
    requires IsRun(run, actions, data)
    ensures |run| == |actions| + 1
  {
  }

  lemma UsedEarlier(since: seq<R.Record>, log: seq<R.Record>, k: Key)
    requires UsedAsDocumented(since + log, k)
    ensures UsedAsDocumented(log, k)
    decreases |since|
  {
    if since == [] {
      assert since + log == log;
    } else {
      assert since + log == [since[0]] + (since[1..] + log);
      UsedBefore(since[1..] + log, since[0], k);
      UsedEarlier(since[1..], log, k);
    }
  }

  lemma TipOfLog(st: Store, data: Contents, k: Key)
    requires Ok(st, data)
    ensures R.Newest(st.log, k, Last(st.log)) == R.Newest(st.log, k, R.MAX_SEQ)
  {
    hide LevelsOk, RunningOk, Stored, JobsOk, TablesOk, Logged, Descending, LiveOk;
    forall w | w in st.log ensures w.seqno <= Last(st.log) && w.seqno <= R.MAX_SEQ {
      var x :| 0 <= x < |st.log| && st.log[x] == w;
    }
    NewestOfAll(st.log, k, Last(st.log), R.MAX_SEQ);
  }

  /** For any other use of single deletes it holds as long as the guards find each flush and each completion
      harmless. */
  lemma {:induction false} HarmlessRunsReadWhatWasWritten(run: seq<Store>, actions: seq<Action>, data: Contents, i: nat,
          k: Key)
    requires IsRun(run, actions, data) && i < |run|
    requires forall j | 0 <= j < i :: Enabled(run[j], data, actions[j]) && HarmlessStep(run[j], data, actions[j], k)
    ensures forall s | s in run[i].live || s == R.MAX_SEQ :: View(run[i], data, k, s) == R.Read(run[i].log, [], k, s)
    ensures Faithful(run[i], data, k)
  {
    hide View, Enabled, HarmlessStep, Ok;
    if i == 0 {
      var n: nat :| n > 0 && run[0] == Empty(n);
      EmptyOk(n, data, k);
    } else {
      HarmlessRunsReadWhatWasWritten(run, actions, data, i - 1, k);
      RunOk(run, actions, data, i - 1, k);
      assert Steps(run[i - 1], data, actions[i - 1], run[i]);
      StepFaithful(run[i - 1], data, actions[i - 1], k);
    }
    forall s | s in run[i].live || s == R.MAX_SEQ ensures View(run[i], data, k, s) == R.Read(run[i].log, [], k, s) {
      ViewIsRead(run[i], data, k, s);
    }
  }
}
