/** The compaction iterator: a loop over a sorted input that outputs one record at a time.
    Merge operands, compaction filters, range tombstones and a snapshot checker are absent. */
module CompactionIterators {
  import opened Records
  import opened Snapshots
  import opened IteratorSpec

  class CompactionIterator {
    const input: seq<Record>
    const config: Config
    const visibleAtTip: bool
    const earliestSnapshot: nat
    const levelPtrs: array<nat>

    // Position of the underlying input iterator.
    var pos: nat
    var valid: bool
    var atNext: bool
    // Key, type, sequence number and value of the current output or input record.
    var ikey: Record
    var hasCurrentUserKey: bool
    var currentUserKey: Key
    var currentUserKeySequence: nat
    var currentUserKeySnapshot: nat
    var hasOutputtedKey: bool
    var clearAndOutputNextKey: bool
    // No record has been output yet.
    ghost var first: bool

    ghost predicate Valid()
      reads this, levelPtrs
    {
      && config.Valid()
      && Sorted(input)
      && visibleAtTip == (config.snapshots == [])
      && earliestSnapshot == Earliest(config.snapshots)
      && pos <= |input|
      && (valid && !atNext ==> pos < |input|)
      && (valid ==> ikey.key == currentUserKey)
      && (config.compaction.Some? && pos < |input| ==>
            config.compaction.value.CursorsBehind(levelPtrs[..], input[pos].key))
    }

    ghost function Abstract(): State
      reads this
    {
      State(hasCurrentUserKey, currentUserKey, currentUserKeySnapshot, hasOutputtedKey, clearAndOutputNextKey, first)
    }

    /** Where the input continues after the current output. */
    ghost function Resume(): nat
      reads this
    {
      if valid && !atNext then pos + 1 else pos
    }

    /** The records still to be seen by the caller, the current one first. */
    ghost function Output(): seq<Record>
      requires Resume() <= |input|
      reads this
    {
      if valid then [ikey] + Run(config, input[Resume()..], Abstract()) else []
    }

    lemma OutputHead()
      requires Valid()
      ensures Resume() <= |input|
      ensures !valid ==> Output() == []
      ensures valid ==> Output() != [] && Output()[0] == ikey && ikey.key == currentUserKey
    {
    }

    constructor (input: seq<Record>, config: Config)
      requires Sorted(input) && config.Valid()
      ensures Valid() && fresh(levelPtrs)
      ensures this.input == input && this.config == config
      ensures pos == 0 && !valid && Abstract() == Fresh(true)
    {
      this.input := input;
      this.config := config;
      var n := if config.compaction.Some? then |config.compaction.value.levels| else 0;
      levelPtrs := new nat[n](_ => 0);
      visibleAtTip := config.snapshots == [];
      earliestSnapshot := if config.snapshots == [] then MAX_SEQ else config.snapshots[0];
      pos := 0;
      valid, atNext, hasCurrentUserKey, hasOutputtedKey, clearAndOutputNextKey := false, false, false, false, false;
      currentUserKey, currentUserKeySequence, currentUserKeySnapshot := 0, 0, 0;
      ikey := Record(0, 0, Value, "");
      first := true;
    }

    method SeekToFirst()
      requires Valid() && pos == 0 && !valid && Abstract() == Fresh(true)
      modifies this, levelPtrs
      ensures Valid() && Output() == Compact(config, input)
      ensures if valid then !first else pos == |input|
    {
      NextFromInput();
      PrepareOutput();
      assert input[0..] == input;
      first := first && !valid;
    }

    method Next()
      requires Valid() && valid && !first
      modifies this, levelPtrs
      ensures Valid() && !first
      ensures old(Output()) == [old(ikey)] + Output()
      ensures !valid ==> pos == |input|
    {
      hide Run;
      if !atNext {
        AdvanceInput();
      }
      NextFromInput();
      if valid {
        hasOutputtedKey := true;
      }
      PrepareOutput();
    }

    /** `input_->Next()` */
    method AdvanceInput()
      requires Valid() && pos < |input|
      requires !atNext
      modifies `pos, `valid
      ensures Valid() && pos == old(pos) + 1 && !valid
    {
      valid := false;
      pos := pos + 1;
      if config.compaction.Some? && pos < |input| {
        assert Before(input[pos - 1], input[pos]);
        config.compaction.value.CursorsBehindLater(levelPtrs[..], input[pos - 1].key, input[pos].key);
      }
    }

    /** Sequential search for the earliest snapshot in which `q` is visible. */
    method FindEarliestVisibleSnapshot(q: nat) returns (snapshot: nat, previous: nat)
      requires config.snapshots != [] && Ascending(config.snapshots)
      ensures snapshot == Stripe(config.snapshots, q) && previous == Previous(config.snapshots, q)
    {
      var prev := MAX_SEQ;
      var i := 0;
      var snaps := config.snapshots;
      while i < |snaps|
        invariant 0 <= i <= |snaps|
        invariant i == 0 ==> prev == MAX_SEQ
        invariant i > 0 ==> prev == snaps[i - 1] < q && prev < MAX_SEQ
        invariant Stripe(snaps, q) == Stripe(snaps[i..], q)
        invariant i > 0 ==> Previous(snaps, q) == Previous(snaps[i - 1..], q)
      {
        var cur := snaps[i];
        assert prev == MAX_SEQ || prev <= cur;
        if cur >= q {
          return cur, if prev == MAX_SEQ then 0 else prev;
        }
        prev := cur;
        assert snaps[i..][1..] == snaps[i + 1..];
        if i > 0 {
          assert snaps[i - 1..][1..] == snaps[i..];
        }
        i := i + 1;
      }
      return MAX_SEQ, prev;
    }

    /** The current output counts as output only when `Next` found it. */
    ghost predicate Did(t: Turn, start: nat)
      reads this
    {
      && valid == t.out.Some?
      && Resume() == start + t.used
      && (valid ==>
            && config.Prepare(ikey) == t.out.value
            && t.state == Abstract().(outputted := hasOutputtedKey || !first, first := false))
      && (!valid ==> !atNext && t.state == Abstract())
    }

    method NextFromInput()
      requires Valid() && Resume() == pos
      modifies this, levelPtrs
      ensures Valid() && first == old(first)
      ensures !valid ==> pos == |input| && Run(config, input[old(pos)..], old(Abstract())) == []
      ensures valid ==>
                Run(config, input[old(pos)..], old(Abstract())) ==
                [config.Prepare(ikey)] +
                Run(config, input[Resume()..], Abstract().(outputted := hasOutputtedKey || !first, first := false))
    {
      hide Run;
      atNext := false;
      valid := false;
      ghost var whole := Run(config, input[pos..], Abstract());
      while !valid && pos < |input|
        invariant Valid() && first == old(first)
        invariant !valid ==> !atNext && whole == Run(config, input[pos..], Abstract())
        invariant valid ==>
                    whole == [config.Prepare(ikey)] +
                    Run(config, input[Resume()..], Abstract().(outputted := hasOutputtedKey || !first, first := false))
        decreases !valid, |input| - pos
      {
        ghost var start := pos;
        ghost var before := Abstract();
        ProcessRecord();
        RunUnfold(config, input, start, before);
      }
      if !valid {
        RunAtEnd(config, Abstract());
        assert input[pos..] == [];
      }
    }

    /** One turn of the loop. */
    method ProcessRecord()
      requires Valid() && !valid && !atNext && pos < |input|
      modifies this, levelPtrs
      ensures Valid() && first == old(first)
      ensures Did(Step(config, input[old(pos)..], old(Abstract())), old(pos))
      ensures !valid ==> pos > old(pos)
    {
      var lastSnapshot, prevSnapshot := EnterRecord();
      if clearAndOutputNextKey {
        ikey := ikey.(value := "");
        valid := true;
        clearAndOutputNextKey := false;
      } else if ikey.kind.SingleDeletion? {
        ProcessSingleDelete(prevSnapshot);
      } else {
        ProcessPlain(lastSnapshot);
      }
    }

    /** Reads the record, notices a change of user key and finds the record's stripe. */
    method EnterRecord() returns (lastSnapshot: nat, prevSnapshot: nat)
      requires Valid() && !valid && !atNext && pos < |input|
      modifies `ikey, `hasCurrentUserKey, `currentUserKey, `hasOutputtedKey, `currentUserKeySequence,
        `currentUserKeySnapshot
      ensures Valid() && ikey == input[pos]
      ensures Abstract() == old(Abstract()).Enter(ikey.key).(snapshot := config.StripeOf(ikey))
      ensures lastSnapshot == old(Abstract()).Enter(ikey.key).snapshot
      ensures prevSnapshot == Previous(config.snapshots, ikey.seqno)
    {
      ikey := input[pos];
      if !hasCurrentUserKey || ikey.key != currentUserKey {
        currentUserKey := ikey.key;
        hasCurrentUserKey := true;
        hasOutputtedKey := false;
        currentUserKeySequence := MAX_SEQ;
        currentUserKeySnapshot := 0;
      }
      currentUserKeySequence := ikey.seqno;
      lastSnapshot := currentUserKeySnapshot;
      prevSnapshot := 0;
      if visibleAtTip {
        currentUserKeySnapshot := earliestSnapshot;
      } else {
        currentUserKeySnapshot, prevSnapshot := FindEarliestVisibleSnapshot(ikey.seqno);
      }
    }

    /** The branches for a put or a deletion. */
    method ProcessPlain(lastSnapshot: nat)
      requires Valid() && !valid && !atNext && pos < |input| && ikey == input[pos] && currentUserKey == ikey.key
      modifies this, levelPtrs
      ensures Valid() && first == old(first)
      ensures Did(PlainTurn(config, old(ikey), lastSnapshot, old(Abstract())), old(pos))
      ensures !valid ==> pos > old(pos)
    {
      if lastSnapshot == currentUserKeySnapshot {
        AdvanceInput();
      } else {
        var obsolete := false;
        if config.compaction.Some? && ikey.kind.Deletion? && ikey.seqno <= earliestSnapshot &&
           config.NotNeededForIncremental(ikey.seqno)
        {
          obsolete := config.compaction.value.KeyNotExistsBeyondOutputLevel(ikey.key, levelPtrs);
        }
        if obsolete {
          AdvanceInput();
        } else {
          valid := true;
        }
      }
    }

    /** The single-delete branch of the loop. */
    method ProcessSingleDelete(prevSnapshot: nat)
      requires Valid() && !valid && !atNext && pos < |input|
      requires ikey == input[pos] && currentUserKey == ikey.key
      requires prevSnapshot == Previous(config.snapshots, ikey.seqno)
      requires !clearAndOutputNextKey
      modifies this, levelPtrs
      ensures Valid() && first == old(first)
      ensures Did(SingleDeleteTurn(config, input[old(pos)..], old(Abstract())), old(pos))
      ensures !valid ==> pos > old(pos)
    {
      ghost var rest := input[pos..];
      if config.compaction.Some? {
        assert config.compaction.value.CursorsBehind(levelPtrs[..], ikey.key);
      }
      AdvanceInput();
      assert pos < |input| ==> rest[1] == input[pos];
      if pos < |input| && input[pos].key == ikey.key {
        if prevSnapshot == 0 || input[pos].seqno > prevSnapshot {
          if input[pos].kind.SingleDeletion? {
            // Skipped: the input is already at the second single delete.
          } else if hasOutputtedKey || ikey.seqno <= config.writeConflict {
            AdvanceInput();
          } else {
            valid := true;
            clearAndOutputNextKey := true;
          }
        } else {
          valid := true;
        }
      } else {
        hasCurrentUserKey := false;
        var obsolete := false;
        if config.compaction.Some? && ikey.seqno <= earliestSnapshot {
          obsolete := config.compaction.value.KeyNotExistsBeyondOutputLevel(ikey.key, levelPtrs);
        }
        if !obsolete {
          valid := true;
        }
      }
      if valid {
        atNext := true;
      }
    }

    method PrepareOutput()
      requires Valid()
      modifies `ikey
      ensures Valid()
      ensures ikey == if valid then config.Prepare(old(ikey)) else old(ikey)
    {
      if config.compaction.Some? && !config.compaction.value.allowIngestBehind &&
         config.NotNeededForIncremental(ikey.seqno) && config.compaction.value.bottommost && valid &&
         ikey.seqno <= earliestSnapshot && config.compaction.value.largestUserKey != ikey.key
      {
        ikey := ikey.(seqno := 0);
      }
    }
  }

  lemma RunAtEnd(c: Config, st: State)
    ensures Run(c, [], st) == []
  {
  }

  lemma RunUnfold(c: Config, input: seq<Record>, start: nat, st: State)
    requires start < |input|
    ensures var t := Step(c, input[start..], st);
            Run(c, input[start..], st) ==
            (if t.out.Some? then [t.out.value] else []) + Run(c, input[start + t.used..], t.state)
  {
    var t := Step(c, input[start..], st);
    assert input[start..][t.used..] == input[start + t.used..];
  }
}
