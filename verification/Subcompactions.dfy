/** Splitting a compaction into subcompactions over half-open key ranges. */
module Subcompactions {
  import opened Options
  import opened Records
  import opened Compactions
  import opened IteratorSpec
  import opened IteratorGroups
  import opened IteratorGuards
  import opened IteratorMeaning
  import opened IteratorZero
  import opened IteratorTheorems
  import opened CompactionIterators

  /** How many records of a sorted stream lie before key `k`. */
  function Cut(input: seq<Record>, k: Key): (n: nat)
    ensures n <= |input|
    ensures forall i | 0 <= i < n :: input[i].key < k
    ensures n < |input| ==> input[n].key >= k
  {
    if input == [] || input[0].key >= k then 0 else 1 + Cut(input[1..], k)
  }

  /** Where a range that starts at `start` begins; no start means the beginning. */
  function StartOf(input: seq<Record>, start: Option<Key>): (n: nat)
    ensures n <= |input|
  {
    if start.None? then 0 else Cut(input, start.value)
  }

  function EndOf(input: seq<Record>, end: Option<Key>): (n: nat)
    ensures n <= |input|
  {
    if end.None? then |input| else Cut(input, end.value)
  }

  /** Output records up to the exclusive end key. */
  function TakeBelow(out: seq<Record>, end: Option<Key>): seq<Record> {
    if out == [] || (end.Some? && out[0].key >= end.value) then []
    else [out[0]] + TakeBelow(out[1..], end)
  }

  lemma TakeBelowStop(out: seq<Record>, end: Option<Key>)
    requires out != [] ==> end.Some? && out[0].key >= end.value
    ensures TakeBelow(out, end) == []
  {
  }

  lemma TakeBelowHead(r: Record, rest: seq<Record>, end: Option<Key>)
    requires end.Some? ==> r.key < end.value
    ensures TakeBelow([r] + rest, end) == [r] + TakeBelow(rest, end)
  {
    assert ([r] + rest)[1..] == rest;
  }

  /** The output of one subcompaction: seek to the start, stop at the end. */
  function Part(c: Config, input: seq<Record>, start: Option<Key>, end: Option<Key>): seq<Record> {
    TakeBelow(Run(c, input[StartOf(input, start)..], Fresh(true)), end)
  }

  /** One subcompaction: seek to the start key, then output until the end key. */
  method ProcessKeyValueCompaction(c: Config, input: seq<Record>, start: Option<Key>, end: Option<Key>)
    returns (out: seq<Record>)
    requires c.Valid() && Sorted(input)
    ensures out == Part(c, input, start, end)
  {
    hide Run;
    hide Sorted;
    hide Cut;
    hide Compact;
    var from := 0;
    if start.Some? {
      from := Seek(input, start.value);
    }
    SortedTail(input, from);
    CompactIsRun(c, input[from..]);
    var it := new CompactionIterator(input[from..], c);
    it.SeekToFirst();
    out := Collect(it, end);
  }

  /** The output loop. */
  method Collect(it: CompactionIterator, end: Option<Key>) returns (out: seq<Record>)
    requires it.Valid() && (it.valid ==> !it.first)
    modifies it, it.levelPtrs
    ensures out == TakeBelow(old(it.Output()), end)
  {
    hide Run;
    hide Sorted;
    hide Config.Valid;
    hide TakeBelow;
    hide CompactionIterator.Output;
    hide Compaction.CursorsBehind;
    out := [];
    ghost var whole := TakeBelow(it.Output(), end);
    while it.valid
      invariant it.Valid() && (it.valid ==> !it.first)
      invariant whole == out + TakeBelow(it.Output(), end)
      decreases |it.Output()|
    {
      ghost var left := it.Output();
      it.OutputHead();
      if end.Some? && it.currentUserKey >= end.value {
        TakeBelowStop(left, end);
        return;
      }
      var r := it.ikey;
      it.Next();
      ghost var rest := TakeBelow(it.Output(), end);
      assert left == [r] + it.Output();
      TakeBelowHead(r, it.Output(), end);
      assert out + ([r] + rest) == out + [r] + rest;
      out := out + [r];
    }
    it.OutputHead();
    TakeBelowStop(it.Output(), end);
  }

  lemma CompactIsRun(c: Config, input: seq<Record>)
    ensures Compact(c, input) == Run(c, input, Fresh(true))
  {
  }

  /** Positions the input at the first record not before `start`. */
  method Seek(input: seq<Record>, start: Key) returns (from: nat)
    ensures from == Cut(input, start)
  {
    from := 0;
    while from < |input| && input[from].key < start
      invariant from <= |input|
      invariant Cut(input, start) == from + Cut(input[from..], start)
    {
      assert input[from..][1..] == input[from + 1..];
      from := from + 1;
    }
  }

  // ---- One part is the run over its own range

  lemma {:induction false} CutSplits(input: seq<Record>, k: Key)
    requires Sorted(input)
    ensures forall i | Cut(input, k) <= i < |input| :: input[i].key >= k
  {
    var n := Cut(input, k);
    forall i | n < i < |input| ensures input[i].key >= k {
      assert Before(input[n], input[i]);
    }
  }

  lemma {:induction false} CutMonotone(input: seq<Record>, k: Key, l: Key)
    requires Sorted(input) && k <= l
    ensures Cut(input, k) <= Cut(input, l)
  {
    var n := Cut(input, l);
    assert n < |input| ==> input[n].key >= l;
  }

  lemma {:induction false} TakeBelowConcat(a: seq<Record>, b: seq<Record>, end: Key)
    requires forall i | 0 <= i < |a| :: a[i].key < end
    requires b != [] ==> b[0].key >= end
    ensures TakeBelow(a + b, Some(end)) == a
  {
    if a == [] {
      assert a + b == b;
    } else {
      assert (a + b)[1..] == a[1..] + b;
      TakeBelowConcat(a[1..], b, end);
    }
  }

  lemma {:induction false} TakeBelowNone(a: seq<Record>)
    ensures TakeBelow(a, None) == a
  {
    if a != [] {
      TakeBelowNone(a[1..]);
    }
  }

  /** The records of one range. */
  function RangeOf(input: seq<Record>, start: Option<Key>, end: Option<Key>): seq<Record> {
    if StartOf(input, start) <= EndOf(input, end) then input[StartOf(input, start)..EndOf(input, end)] else []
  }

  predicate RangeOrdered(start: Option<Key>, end: Option<Key>) {
    start.Some? && end.Some? ==> start.value <= end.value
  }

  lemma RangesOrdered(input: seq<Record>, start: Option<Key>, end: Option<Key>)
    requires Sorted(input) && RangeOrdered(start, end)
    ensures StartOf(input, start) <= EndOf(input, end)
  {
    if start.Some? && end.Some? {
      CutMonotone(input, start.value, end.value);
    }
  }

  lemma PartIsRangeRun(c: Config, input: seq<Record>, start: Option<Key>, end: Option<Key>)
    requires Sorted(input) && RangeOrdered(start, end)
    ensures Part(c, input, start, end) == Run(c, RangeOf(input, start, end), Fresh(true))
  {
    hide Run, Sorted, TakeBelow;
    RangesOrdered(input, start, end);
    var from, to := StartOf(input, start), EndOf(input, end);
    if end.None? {
      TakeBelowNone(Run(c, input[from..], Fresh(true)));
      assert RangeOf(input, start, end) == input[from..];
    } else {
      var m, b := input[from..to], input[to..];
      assert input[from..] == m + b;
      CutSplits(input, end.value);
      hide Cut;
      CutBelow(c, m, b, end.value);
    }
  }

  lemma CutBelow(c: Config, m: seq<Record>, b: seq<Record>, end: Key)
    requires forall i | 0 <= i < |m| :: m[i].key < end
    requires forall i | 0 <= i < |b| :: b[i].key >= end
    ensures TakeBelow(Run(c, m + b, Fresh(true)), Some(end)) == Run(c, m, Fresh(true))
  {
    hide Run;
    RunSplit(c, m, b, Fresh(true));
    var rm := Run(c, m, Fresh(true));
    var rb := Run(c, b, Fresh(rm == []));
    forall o | 0 <= o < |rm| ensures rm[o].key < end {
      var i := OutputFromInput(c, m, Fresh(true), o);
    }
    if rb != [] {
      var i := OutputFromInput(c, b, Fresh(rm == []), 0);
    }
    TakeBelowConcat(rm, rb, end);
  }

  // ---- All the parts together

  /** The concatenated outputs of the subcompactions from `start` on. */
  function PartsFrom(c: Config, input: seq<Record>, boundaries: seq<Key>, start: Option<Key>): seq<Record>
    decreases |boundaries|
  {
    if boundaries == [] then Part(c, input, start, None)
    else Part(c, input, start, Some(boundaries[0])) + PartsFrom(c, input, boundaries[1..], Some(boundaries[0]))
  }

  predicate Increasing(boundaries: seq<Key>, start: Option<Key>) {
    && (forall i, j | 0 <= i < j < |boundaries| :: boundaries[i] < boundaries[j])
    && (start.Some? ==> forall i | 0 <= i < |boundaries| :: start.value < boundaries[i])
  }

  /** No transaction needs to see a single delete. */
  predicate DeletesSettled(c: Config, recs: seq<Record>) {
    forall i | 0 <= i < |recs| && recs[i].kind.SingleDeletion? :: recs[i].seqno <= c.writeConflict
  }

  /** Then it does not matter what was output before. */
  lemma {:induction false} OutputtedIrrelevant(c: Config, rest: seq<Record>, st: State, st': State)
    requires DeletesSettled(c, rest) && !st.clear && st' == st.(outputted := st'.outputted, first := st'.first)
    ensures Run(c, rest, st) == Run(c, rest, st')
    decreases |rest|
  {
    hide Run;
    if rest == [] {
      RunEmpty(c, st);
      RunEmpty(c, st');
    } else {
      SettledTurn(c, rest, st, st');
      var t, t' := Step(c, rest, st), Step(c, rest, st');
      RunOnce(c, rest, st);
      RunOnce(c, rest, st');
      OutputtedIrrelevant(c, rest[t.used..], t.state, t'.state);
    }
  }

  lemma SettledTurn(c: Config, rest: seq<Record>, st: State, st': State)
    requires rest != [] && DeletesSettled(c, rest)
    requires !st.clear && st' == st.(outputted := st'.outputted, first := st'.first)
    ensures var t, t' := Step(c, rest, st), Step(c, rest, st');
            && 1 <= t.used <= |rest| && t.used == t'.used && t.out == t'.out && !t.state.clear
            && t'.state == t.state.(outputted := t'.state.outputted, first := t'.state.first)
            && DeletesSettled(c, rest[t.used..])
  {
    hide Config.Prepare, Config.BottomTombstone;
  }

  lemma {:induction false} PartsJoin(c: Config, input: seq<Record>, boundaries: seq<Key>, start: Option<Key>)
    requires Sorted(input) && DeletesSettled(c, input) && Increasing(boundaries, start)
    ensures PartsFrom(c, input, boundaries, start) == Run(c, input[StartOf(input, start)..], Fresh(true))
    decreases |boundaries|
  {
    hide Run, Part, RangeOf, Cut, DeletesSettled, Sorted;
    if boundaries == [] {
      LastPart(c, input, start);
    } else {
      var b := boundaries[0];
      PartsJoin(c, input, boundaries[1..], Some(b));
      FirstPart(c, input, start, b);
    }
  }

  lemma LastPart(c: Config, input: seq<Record>, start: Option<Key>)
    requires Sorted(input)
    ensures Part(c, input, start, None) == Run(c, input[StartOf(input, start)..], Fresh(true))
  {
    hide Run, Part, Sorted, Cut;
    PartIsRangeRun(c, input, start, None);
    assert RangeOf(input, start, None) == input[StartOf(input, start)..];
  }

  /** The first part and a run over everything after it make a run over all. */
  lemma FirstPart(c: Config, input: seq<Record>, start: Option<Key>, b: Key)
    requires Sorted(input) && DeletesSettled(c, input) && (start.Some? ==> start.value < b)
    ensures Part(c, input, start, Some(b)) + Run(c, input[Cut(input, b)..], Fresh(true)) ==
            Run(c, input[StartOf(input, start)..], Fresh(true))
  {
    hide Run, Part, Sorted, Cut, DeletesSettled, StartOf;
    var from, to := StartOf(input, start), Cut(input, b);
    RangesOrdered(input, start, Some(b));
    PartIsRangeRun(c, input, start, Some(b));
    CutPieces(c, input, from, b);
    JoinRuns(c, input[from..to], input[to..]);
  }

  lemma CutPieces(c: Config, input: seq<Record>, from: nat, b: Key)
    requires DeletesSettled(c, input) && from <= Cut(input, b)
    ensures var to := Cut(input, b);
            && input[from..] == input[from..to] + input[to..] && DeletesSettled(c, input[to..])
            && (from < to < |input| ==> input[from..to][to - from - 1].key < input[to..][0].key)
  {
    hide Cut;
    var to := Cut(input, b);
    if from < to < |input| {
      assert input[from..to][to - from - 1] == input[to - 1];
    }
  }

  /** Runs over separate keys join. */
  lemma JoinRuns(c: Config, m: seq<Record>, rest: seq<Record>)
    requires DeletesSettled(c, rest) && (m != [] && rest != [] ==> m[|m| - 1].key != rest[0].key)
    ensures Run(c, m + rest, Fresh(true)) == Run(c, m, Fresh(true)) + Run(c, rest, Fresh(true))
  {
    hide Run, DeletesSettled;
    RunSplit(c, m, rest, Fresh(true));
    OutputtedIrrelevant(c, rest, Fresh(true), Fresh(Run(c, m, Fresh(true)) == []));
  }

  /** Splitting is invisible: unless a transaction needs to see a single delete, the concatenated outputs of the
      subcompactions are the output of the unsplit compaction. */
  lemma SplitIsInvisible(c: Config, input: seq<Record>, boundaries: seq<Key>)
    requires Sorted(input) && DeletesSettled(c, input) && Increasing(boundaries, None)
    ensures PartsFrom(c, input, boundaries, None) == Compact(c, input)
  {
    PartsJoin(c, input, boundaries, None);
    assert input[0..] == input;
  }

  /** The records of the range in which key `k` lies. */
  function PartOf(input: seq<Record>, boundaries: seq<Key>, start: Option<Key>, k: Key): seq<Record>
    decreases |boundaries|
  {
    if boundaries == [] then RangeOf(input, start, None)
    else if k < boundaries[0] then RangeOf(input, start, Some(boundaries[0]))
    else PartOf(input, boundaries[1..], Some(boundaries[0]), k)
  }

  /** A key's share of the split output is the run over its versions, the first to output if nothing before it in its
      own range outputs. */
  lemma {:induction false} PartsKeyRun(c: Config, input: seq<Record>, boundaries: seq<Key>, start: Option<Key>, k: Key)
    requires Sorted(input) && Increasing(boundaries, start)
    requires start.Some? ==> start.value <= k
    ensures VersionsOf(PartsFrom(c, input, boundaries, start), k) ==
            Run(c, VersionsOf(input[StartOf(input, start)..], k),
              Fresh(Silent(c, PartOf(input, boundaries, start, k), k)))
    decreases |boundaries|
  {
    hide Run;
    hide VersionsOf, Silent;
    var from := StartOf(input, start);
    if boundaries == [] {
      SortedTail(input, from);
      PartIsRangeRun(c, input, start, None);
      assert RangeOf(input, start, None) == input[from..];
      SilentRun(c, input[from..], k);
    } else {
      var b := Some(boundaries[0]);
      var later := boundaries[1..];
      VersionsOfConcat(Part(c, input, start, b), PartsFrom(c, input, later, b), k);
      if k < boundaries[0] {
        LaterParts(c, input, later, b, k);
        KeyInPart(c, input, start, boundaries[0], k);
      } else {
        KeyAfterPart(c, input, start, boundaries[0], k);
        PartsKeyRun(c, input, later, b, k);
      }
    }
  }

  lemma SilentRun(c: Config, input: seq<Record>, k: Key)
    requires Sorted(input)
    ensures VersionsOf(Run(c, input, Fresh(true)), k) == Run(c, VersionsOf(input, k), Fresh(Silent(c, input, k)))
  {
    hide Run, VersionsOf, Silent, NothingBefore, Sorted;
    var first := KeyRun(c, input, k);
    SilentIff(c, input, k);
  }

  /** The key lies in the first range. */
  lemma KeyInPart(c: Config, input: seq<Record>, start: Option<Key>, b: Key, k: Key)
    requires Sorted(input) && RangeOrdered(start, Some(b)) && k < b
    ensures VersionsOf(Part(c, input, start, Some(b)), k) ==
            Run(c, VersionsOf(input[StartOf(input, start)..], k), Fresh(Silent(c, RangeOf(input, start, Some(b)), k)))
  {
    hide Run;
    hide VersionsOf, Silent;
    var from, to := StartOf(input, start), Cut(input, b);
    RangesOrdered(input, start, Some(b));
    PartIsRangeRun(c, input, start, Some(b));
    var m, rest := input[from..to], input[to..];
    assert input[from..] == m + rest;
    VersionsOfConcat(m, rest, k);
    CutSplits(input, b);
    VersionsOfNone(rest, k);
    assert VersionsOf(input[from..], k) == VersionsOf(m, k);
    SortedRange(input, from, to);
    SilentRun(c, m, k);
  }

  /** The key lies beyond the first range. */
  lemma KeyAfterPart(c: Config, input: seq<Record>, start: Option<Key>, b: Key, k: Key)
    requires Sorted(input) && RangeOrdered(start, Some(b)) && b <= k
    ensures VersionsOf(Part(c, input, start, Some(b)), k) == []
    ensures VersionsOf(input[StartOf(input, start)..], k) == VersionsOf(input[Cut(input, b)..], k)
  {
    hide Run;
    hide VersionsOf;
    var from, to := StartOf(input, start), Cut(input, b);
    RangesOrdered(input, start, Some(b));
    PartIsRangeRun(c, input, start, Some(b));
    var m, rest := input[from..to], input[to..];
    assert input[from..] == m + rest;
    VersionsOfConcat(m, rest, k);
    VersionsOfNone(m, k);
    OnlyKey(c, m, Fresh(true), k);
  }

  lemma SortedRange(input: seq<Record>, from: nat, to: nat)
    requires Sorted(input) && from <= to <= |input|
    ensures Sorted(input[from..to])
  {
  }

  /** Later subcompactions output nothing for earlier keys. */
  lemma {:induction false} LaterParts(c: Config, input: seq<Record>, boundaries: seq<Key>, start: Option<Key>, k: Key)
    requires Sorted(input) && Increasing(boundaries, start) && start.Some? && k < start.value
    ensures VersionsOf(PartsFrom(c, input, boundaries, start), k) == []
    decreases |boundaries|
  {
    hide Run;
    hide VersionsOf;
    CutSplits(input, start.value);
    var end := if boundaries == [] then None else Some(boundaries[0]);
    RangesOrdered(input, start, end);
    PartIsRangeRun(c, input, start, end);
    OnlyKey(c, RangeOf(input, start, end), Fresh(true), k);
    if boundaries != [] {
      LaterParts(c, input, boundaries[1..], end, k);
      VersionsOfConcat(Part(c, input, start, end), PartsFrom(c, input, boundaries[1..], end), k);
    }
  }

  /** The output of a split compaction may differ from that of the unsplit one, but its reads are kept under the same
      condition, with the flag as the key's own range sets it. */
  lemma SplitReadsExactly(c: Config, input: seq<Record>, deeper: seq<Record>, boundaries: seq<Key>, k: Key)
    requires Placed(c, input, deeper, k) && Increasing(boundaries, None)
    ensures ReadsKept(c, input, PartsFrom(c, input, boundaries, None), deeper, k) <==>
            Safe(c, VersionsOf(input, k), VersionsOf(deeper, k), EnoughFor(c, PartOf(input, boundaries, None, k), k))
  {
    hide Run, PartsFrom, ReadsKept, Safe, Silent;
    PartsKeyRun(c, input, boundaries, None, k);
    assert input[0..] == input;
    ReadsFromHistory(c, input, PartsFrom(c, input, boundaries, None), deeper, k,
                     Silent(c, PartOf(input, boundaries, None, k), k));
  }

  /** With the documented use of single deletes only a put at 0 can be lost. */
  lemma SplitPreservesReads(c: Config, input: seq<Record>, deeper: seq<Record>, boundaries: seq<Key>, k: Key)
    requires Placed(c, input, deeper, k) && WellUsed(input, deeper, k) && Increasing(boundaries, None)
    ensures ReadsKept(c, input, PartsFrom(c, input, boundaries, None), deeper, k) <==>
            !LostAtZero(c, VersionsOf(input, k), EnoughFor(c, PartOf(input, boundaries, None, k), k))
    ensures 0 !in c.snapshots ==> ReadsKept(c, input, PartsFrom(c, input, boundaries, None), deeper, k)
  {
    hide PartsFrom, ReadsKept, Silent, Placed, HarmlessBy, LostAtZero, VersionsOf, WellUsed;
    var part := PartOf(input, boundaries, None, k);
    SplitReadsExactly(c, input, deeper, boundaries, k);
    WellUsedHarmless(c, input, deeper, k, Silent(c, part, k));
    LostUnderZero(c, input, deeper, k, EnoughFor(c, part, k));
  }

  // ---- A split that shows in the output

  const OVERWRITTEN := [Record(2, 9, Value, "b"), Record(2, 8, SingleDeletion, ""), Record(2, 7, Value, "c")]
  const CONFLICTS := Config([1], 1, None, 0)

  /** Whether the single delete and its put go depends on whether the put above them was the first record output. */
  lemma FirstOutputMatters(first: bool)
    ensures |Run(CONFLICTS, OVERWRITTEN, Fresh(first))| == if first then 3 else 1
  {
    hide Run;
    var c, g, st := CONFLICTS, OVERWRITTEN, Fresh(first);
    var t := Step(c, g, st);
    RunOnce(c, g, st);
    assert t.used == 1 && t.out.Some? && t.state.outputted == !first;
    RunOnce(c, g[1..], t.state);
    var t1 := Step(c, g[1..], t.state);
    if first {
      assert t1.used == 1 && t1.out.Some? && t1.state.clear;
      assert g[1..][1..] == g[2..];
      RunOnce(c, g[2..], t1.state);
      var t2 := Step(c, g[2..], t1.state);
      assert g[2..][1..] == [];
      RunEmpty(c, t2.state);
    } else {
      assert t1.used == 2 && t1.out.None?;
      assert g[1..][2..] == [];
      RunEmpty(c, t1.state);
    }
  }

  /** With single deletes a split may keep more: here the unsplit compaction outputs two records, the split one four. */
  lemma SplitMayKeepMore(r: Record)
    requires r == Record(1, 6, Value, "a")
    ensures var input := [r] + OVERWRITTEN;
            && CONFLICTS.Valid() && Sorted(input)
            && |Compact(CONFLICTS, input)| == 2 && |PartsFrom(CONFLICTS, input, [2], None)| == 4
  {
    hide Run, Sorted, Step;
    var c, input := CONFLICTS, [r] + OVERWRITTEN;
    SortedFour(r);
    RunAlone(r);
    RunSplit(c, [r], OVERWRITTEN, Fresh(true));
    FirstOutputMatters(false);
    FirstOutputMatters(true);
    PartIsRangeRun(c, input, None, Some(2));
    PartIsRangeRun(c, input, Some(2), None);
    assert Cut(input, 2) == 1;
    assert input[0..1] == [r] && input[1..4] == OVERWRITTEN && [2][1..] == [];
  }

  lemma RunAlone(r: Record)
    requires r == Record(1, 6, Value, "a")
    ensures Run(CONFLICTS, [r], Fresh(true)) == [r]
  {
    hide Run;
    RunOnce(CONFLICTS, [r], Fresh(true));
    RunEmpty(CONFLICTS, Step(CONFLICTS, [r], Fresh(true)).state);
  }

  lemma SortedFour(r: Record)
    requires r == Record(1, 6, Value, "a")
    ensures Sorted([r] + OVERWRITTEN)
  {
  }
}
