/** A run in which single deletes are misused: a value that was overwritten and deleted comes back. */
module DatabaseRuns {
  import opened Options
  import opened LevelFiles
  import opened LevelState
  import opened LevelRecords
  import opened Database
  import opened DatabaseReads
  import R = Records
  import I = IteratorSpec
  import G = IteratorGroups

  const OLD := R.Record(7, 1, R.Value, "old")
  const NEW := R.Record(7, 2, R.Value, "new")
  const GONE := R.Record(7, 3, R.SingleDeletion, "")
  const CFG := I.Config([], R.MAX_SEQ, None, 0)
  const FILE := File(1, 7, 7, 0)
  const DATA: Contents := map[1 := [OLD]]

  function State(files: seq<File>, tables: seq<seq<R.Record>>, log: seq<R.Record>): Store {
    Store([files], map[], map[], tables, log, {})
  }

  lemma OldKept()
    ensures I.Compact(CFG, [OLD]) == [OLD]
  {
    var t := I.Step(CFG, [OLD], I.Fresh(true));
    assert t.used == 1 && t.out == Some(OLD) && [OLD][1..] == [];
    G.RunOnce(CFG, [OLD], I.Fresh(true));
    G.RunEmpty(CFG, t.state);
  }

  lemma PairGone()
    ensures I.Compact(CFG, [GONE, NEW]) == []
  {
    var t := I.Step(CFG, [GONE, NEW], I.Fresh(true));
    assert t.used == 2 && t.out.None? && [GONE, NEW][2..] == [];
    G.RunOnce(CFG, [GONE, NEW], I.Fresh(true));
    G.RunEmpty(CFG, t.state);
  }

  lemma Writes(files: seq<File>, table: seq<R.Record>, log: seq<R.Record>, r: R.Record)
    requires Last(log) < r.seqno <= R.MAX_SEQ
    ensures Steps(State(files, [table], log), DATA, Write(r), State(files, [Put(table, r)], [r] + log))
  {
    var st := State(files, [table], log);
    assert [Put(table, r)] + st.tables[1..] == [Put(table, r)];
  }

  lemma Switches(files: seq<File>, table: seq<R.Record>, log: seq<R.Record>)
    ensures Steps(State(files, [table], log), DATA, Switch, State(files, [[], table], log))
  {
    assert [[]] + [table] == [[], table];
  }

  lemma Flushes(files: seq<File>, table: seq<R.Record>, log: seq<R.Record>, added: seq<File>)
    requires R.Sorted(table) && |added| <= 1 && Fresh([files], added) && RangesOk(added) && AllHold(added, DATA)
    requires RecordsOf(added, DATA) == I.Compact(CFG, table)
    ensures Steps(State(files, [[], table], log), DATA, Flush(1, CFG, table, added), State(added + files, [[]], log))
  {
    hide I.Compact, R.Sorted, RecordsOf, AllHold, Fresh, RangesOk, Join;
    var st := State(files, [[], table], log);
    assert st.tables[1..] == [table];
    JoinOne(table);
    assert CanFlush(st, DATA, 1, CFG, table, added);
    hide CanFlush;
    FlushedState(files, table, log, added);
  }

  lemma FlushedState(files: seq<File>, table: seq<R.Record>, log: seq<R.Record>, added: seq<File>)
    requires |added| <= 1
    ensures Flushed(State(files, [[], table], log), 1, added) == State(added + files, [[]], log)
  {
    if added == [] {
      assert added + files == files;
    } else {
      assert added == [added[0]];
    }
  }

  lemma JoinOne(table: seq<R.Record>)
    ensures Join([table]) == table
  {
    assert [table][1..] == [];
  }

  lemma Tables()
    ensures Put([], OLD) == [OLD] && Put([], NEW) == [NEW] && Put([NEW], GONE) == [GONE, NEW]
    ensures R.Sorted([OLD]) && R.Sorted([GONE, NEW])
  {
  }

  lemma Extend(run: seq<Store>, actions: seq<Action>, a: Action, st: Store)
    requires IsRun(run, actions, DATA) && Steps(run[|run| - 1], DATA, a, st)
    ensures IsRun(run + [st], actions + [a], DATA)
  {
    hide Steps;
    var run', actions' := run + [st], actions + [a];
    forall i | 0 <= i < |actions'| ensures Steps(run'[i], DATA, actions'[i], run'[i + 1]) {
      if i < |actions| {
        assert Steps(run[i], DATA, actions[i], run[i + 1]);
      }
    }
  }

  /** The older put is flushed. */
  lemma FirstFlush() returns (run: seq<Store>, actions: seq<Action>)
    ensures IsRun(run, actions, DATA) && |run| == 4 && run[3] == State([FILE], [[]], [OLD])
  {
    hide Steps, IsRun, I.Compact, R.Sorted, Put, AllHold, RecordsOf, Fresh, RangesOk;
    run, actions := StartRun();
    Tables();
    OldKept();
    OldHeld();
    Writes([], [], [], OLD);
    assert [OLD] + [] == [OLD];
    Extend(run, actions, Write(OLD), State([], [[OLD]], [OLD]));
    run, actions := run + [State([], [[OLD]], [OLD])], actions + [Write(OLD)];
    Switches([], [OLD], [OLD]);
    Extend(run, actions, Switch, State([], [[], [OLD]], [OLD]));
    run, actions := run + [State([], [[], [OLD]], [OLD])], actions + [Switch];
    Flushes([], [OLD], [OLD], [FILE]);
    assert [FILE] + [] == [FILE];
    Extend(run, actions, Flush(1, CFG, [OLD], [FILE]), State([FILE], [[]], [OLD]));
    run, actions := run + [State([FILE], [[]], [OLD])], actions + [Flush(1, CFG, [OLD], [FILE])];
  }

  lemma StartRun() returns (run: seq<Store>, actions: seq<Action>)
    ensures IsRun(run, actions, DATA) && run == [State([], [[]], [])]
  {
    run, actions := [State([], [[]], [])], [];
    assert run[0] == Empty(1);
  }

  /** Then the newer one is written, singly deleted and flushed, and a read at the tip finds the older one. */
  lemma MisusedRun() returns (run: seq<Store>, actions: seq<Action>)
    ensures IsRun(run, actions, DATA) && |run| == 8 && !UsedAsDocumented(run[7].log, 7)
    ensures R.Read(run[7].log, [], 7, R.MAX_SEQ) == R.NotFound && View(run[7], DATA, 7, R.MAX_SEQ) == R.Found("old")
  {
    hide Steps, IsRun, I.Compact, R.Sorted, Put, AllHold, RecordsOf, Fresh, RangesOk, UsedAsDocumented, View, R.Read;
    run, actions := FirstFlush();
    Tables();
    PairGone();
    OldHeld();
    Writes([FILE], [], [OLD], NEW);
    assert [NEW] + [OLD] == [NEW, OLD] && [GONE] + [NEW, OLD] == [GONE, NEW, OLD] && [] + [FILE] == [FILE];
    Extend(run, actions, Write(NEW), State([FILE], [[NEW]], [NEW, OLD]));
    run, actions := run + [State([FILE], [[NEW]], [NEW, OLD])], actions + [Write(NEW)];
    Writes([FILE], [NEW], [NEW, OLD], GONE);
    Extend(run, actions, Write(GONE), State([FILE], [[GONE, NEW]], [GONE, NEW, OLD]));
    run, actions := run + [State([FILE], [[GONE, NEW]], [GONE, NEW, OLD])], actions + [Write(GONE)];
    Switches([FILE], [GONE, NEW], [GONE, NEW, OLD]);
    Extend(run, actions, Switch, State([FILE], [[], [GONE, NEW]], [GONE, NEW, OLD]));
    run, actions := run + [State([FILE], [[], [GONE, NEW]], [GONE, NEW, OLD])], actions + [Switch];
    Flushes([FILE], [GONE, NEW], [GONE, NEW, OLD], []);
    Extend(run, actions, Flush(1, CFG, [GONE, NEW], []), State([FILE], [[]], [GONE, NEW, OLD]));
    run, actions := run + [State([FILE], [[]], [GONE, NEW, OLD])], actions + [Flush(1, CFG, [GONE, NEW], [])];
    OldComesBack();
  }

  lemma OldHeld()
    ensures AllHold([FILE], DATA) && RecordsOf([FILE], DATA) == [OLD] && RecordsOf([], DATA) == []
    ensures RangesOk([FILE]) && Fresh([[]], [FILE]) && AllHold([], DATA) && RangesOk([]) && Fresh([[FILE]], [])
  {
  }

  lemma Misused(log: seq<R.Record>)
    requires log == [GONE, NEW, OLD]
    ensures !UsedAsDocumented(log, 7) && R.Read(log, [], 7, R.MAX_SEQ) == R.NotFound
  {
    R.VersionsOfAll(log, 7);
    hide R.VersionsOf;
    assert log[0].kind.SingleDeletion? && log[1].kind == log[2].kind;
  }

  lemma OldComesBack()
    ensures var st := State([FILE], [[]], [GONE, NEW, OLD]);
            && !UsedAsDocumented(st.log, 7)
            && R.Read(st.log, [], 7, R.MAX_SEQ) == R.NotFound && View(st, DATA, 7, R.MAX_SEQ) == R.Found("old")
  {
    var st := State([FILE], [[]], [GONE, NEW, OLD]);
    hide UsedAsDocumented, View, R.VersionsOf, RecordsOf, AllHold, RangesOk, Fresh;
    Misused(st.log);
    OldHeld();
    JoinOne([]);
    OneLevel();
    assert All(st, DATA) == [OLD];
    R.VersionsOfAll([OLD], 7);
    ViewIsRead(st, DATA, 7, R.MAX_SEQ);
  }

  lemma OneLevel()
    ensures FilesOf([[FILE]]) == [FILE]
  {
    assert [[FILE]][1..] == [];
  }
}
