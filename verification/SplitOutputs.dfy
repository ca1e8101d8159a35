/** Exactly when a split compaction outputs what the unsplit one does. */
module SplitOutputs {
  import opened Options
  import opened Records
  import opened Snapshots
  import opened IteratorSpec
  import opened IteratorGroups
  import opened IteratorGuards
  import opened IteratorMeaning
  import opened IteratorZero
  import opened Subcompactions

  // ---- One key, first to output or not

  /** The states agree but for what was output before. */
  predicate Alike(st: State, st': State, k: Key) {
    st.Enter(k).snapshot == st'.Enter(k).snapshot
  }

  /** Two runs over a key that differ only in when the flag is set: one turn. */
  lemma TurnsAgree(c: Config, g: seq<Record>, st: State, st': State, k: Key, n: nat)
    requires AllOf(g, k) && g != [] && Counts(st, k, n, 1) && Counts(st', k, n, 2) && Alike(st, st', k)
    requires !(n == 1 && |g| > 1 && Diverts(c, g))
    ensures var t, t' := Step(c, g, st), Step(c, g, st');
            && t.used == t'.used && t.out == t'.out && t.state.clear == t'.state.clear
            && (!t.state.clear && t.used < |g| ==> Alike(t.state, t'.state, k))
  {
    hide Config.Prepare, Config.BottomTombstone;
  }

  /** The guard that asks for the flag. */
  predicate Diverts(c: Config, g: seq<Record>)
    requires |g| > 1
  {
    && g[0].kind.SingleDeletion? && Peeked(c, g[0], g[1]) && !g[1].kind.SingleDeletion?
    && g[0].seqno > c.writeConflict
  }

  /** Where the flag decides, the key that is the first to output keeps two records more. */
  lemma DivertsDiffer(c: Config, g: seq<Record>, k: Key, last: nat)
    requires Stack(c, g, [], k) && |g| > 1 && Diverts(c, g)
    ensures Outputs(c, g, 0, last, 1, 2) == Outputs(c, g, 0, last, 1, 1) + 2
  {
    var stripe, next := c.StripeOf(g[0]), c.StripeOf(g[1]);
    assert Outputs(c, g, 0, last, 1, 1) == Outputs(c, g[2..], 0, stripe, 1, 1);
    assert Outputs(c, g, 0, last, 1, 2) == Outputs(c, g[2..], 0, next, 3, 2);
    hide Outputs;
    if next == stripe {
      OutputsShift(c, g[2..], 0, stripe, 1, 1, 3, 2);
    } else {
      if next != 0 {
        SameStripeIffAbovePrevious(c.snapshots, g[1].seqno, g[0].seqno);
      }
      AtZero(c, g, [], k, 1);
      OutputsNone(c, g[2..], 0, stripe, 1, 1);
      OutputsNone(c, g[2..], 0, next, 3, 2);
    }
  }

  /** Where both flags give as many records, they give the same. */
  lemma {:induction false} RunsAgree(c: Config, g: seq<Record>, k: Key, st: State, st': State, last: nat, n: nat)
    requires Stack(c, g, [], k)
    requires g != [] ==> Counts(st, k, n, 1) && Counts(st', k, n, 2) && Last(st, k) == last == Last(st', k)
    requires Outputs(c, g, 0, last, n, 1) == Outputs(c, g, 0, last, n, 2)
    ensures Run(c, g, st) == Run(c, g, st')
    decreases |g|
  {
    hide Run, Step, Counts, Outputs, Stack, Diverts;
    if g == [] {
      RunEmpty(c, st);
      RunEmpty(c, st');
    } else {
      KeyOf(c, g, [], k);
      if n == 1 && |g| > 1 && Diverts(c, g) {
        DivertsDiffer(c, g, k, last);
      }
      TurnsAgree(c, g, st, st', k, n);
      var t, t' := Step(c, g, st), Step(c, g, st');
      RunOnce(c, g, st);
      RunOnce(c, g, st');
      if t.state.clear {
        TurnsCount(c, g, st, k, 0, n, 1);
        TurnsCount(c, g, st', k, 0, n, 2);
        RunOnce(c, g[1..], t.state);
        RunOnce(c, g[1..], t'.state);
        assert g[1..][1..] == g[2..];
        StackTail(c, g, [], k, 2);
        var u, u' := Step(c, g[1..], t.state), Step(c, g[1..], t'.state);
        RunsAgree(c, g[2..], k, u.state, u'.state, Last(u.state, k), n + 2);
      } else {
        TurnCounts(c, g, st, k, 0, n, 1);
        TurnCounts(c, g, st', k, 0, n, 2);
        StackTail(c, g, [], k, t.used);
        RunsAgree(c, g[t.used..], k, t.state, t'.state, c.StripeOf(g[0]), if t.out.Some? then n + 1 else n);
      }
    }
  }

  /** A key outputs the same, first to output or not, exactly if by the guards it outputs as many records. */
  lemma SameRunIff(c: Config, g: seq<Record>, k: Key, first: bool, first': bool)
    requires Stack(c, g, [], k)
    ensures Run(c, g, Fresh(first)) == Run(c, g, Fresh(first')) <==>
            Outputs(c, g, 0, 0, 0, Enough(first)) == Outputs(c, g, 0, 0, 0, Enough(first'))
  {
    hide Run, Outputs, Stack;
    KeyOf(c, g, [], k);
    RunCount(c, g, Fresh(true), k, 0, 0, 2);
    RunCount(c, g, Fresh(false), k, 0, 0, 1);
    if Outputs(c, g, 0, 0, 0, 1) == Outputs(c, g, 0, 0, 0, 2) {
      RunsAgree(c, g, k, Fresh(false), Fresh(true), 0, 0);
    }
  }

  // ---- All keys

  ghost predicate KeyOrdered(out: seq<Record>) {
    forall i, j | 0 <= i < j < |out| :: out[i].key <= out[j].key
  }

  lemma {:induction false} RunKeyOrdered(c: Config, rest: seq<Record>, st: State)
    requires Sorted(rest) && ClearPending(rest, st)
    ensures KeyOrdered(Run(c, rest, st))
    decreases |rest|
  {
    hide Run, Step, Config.Prepare;
    if rest == [] {
      RunEmpty(c, st);
    } else {
      StepState(c, rest, st);
      RunOnce(c, rest, st);
      var t := Step(c, rest, st);
      SortedTail(rest, t.used);
      RunKeyOrdered(c, rest[t.used..], t.state);
      var tail := Run(c, rest[t.used..], t.state);
      if t.out.Some? {
        PrepareKey(c, rest[0]);
        forall o | 0 <= o < |tail| ensures t.out.value.key <= tail[o].key {
          var i := OutputFromInput(c, rest[t.used..], t.state, o);
          PrepareKey(c, rest[t.used..][i]);
          assert Before(rest[0], rest[t.used + i]);
        }
      }
    }
  }

  lemma PrepareKey(c: Config, r: Record)
    ensures c.Prepare(r).key == r.key && c.Prepare(r.(value := "")).key == r.key
  {
  }

  lemma {:induction false} SameByKey(a: seq<Record>, b: seq<Record>)
    requires KeyOrdered(a) && KeyOrdered(b) && forall k :: VersionsOf(a, k) == VersionsOf(b, k)
    ensures a == b
    decreases |a|
  {
    if a == [] {
      if b != [] {
        HeadByKey(b, a);
      }
    } else {
      HeadByKey(a, b);
      assert forall k :: VersionsOf(a[1..], k) == VersionsOf(b[1..], k) by {
        forall k ensures VersionsOf(a[1..], k) == VersionsOf(b[1..], k) {
          TailByKey(a, b, k);
        }
      }
      SameByKey(a[1..], b[1..]);
    }
  }

  lemma HeadByKey(a: seq<Record>, b: seq<Record>)
    requires a != [] && KeyOrdered(a) && KeyOrdered(b) && forall k :: VersionsOf(a, k) == VersionsOf(b, k)
    ensures b != [] && a[0] == b[0]
  {
    var k := a[0].key;
    assert VersionsOf(b, k) == VersionsOf(a, k) != [];
    var i := VersionIndex(b, k, 0);
    var j := VersionIndex(a, b[0].key, 0) by {
      assert VersionsOf(a, b[0].key) == VersionsOf(b, b[0].key);
    }
    assert b[0].key <= b[i].key && a[0].key <= a[j].key;
  }

  lemma TailByKey(a: seq<Record>, b: seq<Record>, k: Key)
    requires a != [] && b != [] && a[0] == b[0] && VersionsOf(a, k) == VersionsOf(b, k)
    ensures VersionsOf(a[1..], k) == VersionsOf(b[1..], k)
  {
    if a[0].key == k {
      assert VersionsOf(a, k)[1..] == VersionsOf(a[1..], k);
      assert VersionsOf(b, k)[1..] == VersionsOf(b[1..], k);
    }
  }

  lemma {:induction false} PartsKeyOrdered(c: Config, input: seq<Record>, boundaries: seq<Key>, start: Option<Key>)
    requires Sorted(input) && Increasing(boundaries, start)
    ensures KeyOrdered(PartsFrom(c, input, boundaries, start))
    ensures start.Some? ==> forall r | r in PartsFrom(c, input, boundaries, start) :: r.key >= start.value
    decreases |boundaries|
  {
    hide Run, Part, Sorted, Cut;
    var end := if boundaries == [] then None else Some(boundaries[0]);
    PartWithin(c, input, start, end);
    if boundaries != [] {
      PartsKeyOrdered(c, input, boundaries[1..], end);
    }
  }

  lemma PartWithin(c: Config, input: seq<Record>, start: Option<Key>, end: Option<Key>)
    requires Sorted(input) && RangeOrdered(start, end)
    ensures var out := Part(c, input, start, end);
            && KeyOrdered(out)
            && (start.Some? ==> forall r | r in out :: r.key >= start.value)
            && (end.Some? ==> forall r | r in out :: r.key < end.value)
  {
    hide Run, Part;
    PartIsRangeRun(c, input, start, end);
    RangesOrdered(input, start, end);
    var m := RangeOf(input, start, end);
    SortedRange(input, StartOf(input, start), EndOf(input, end));
    RunKeyOrdered(c, m, Fresh(true));
    var out := Run(c, m, Fresh(true));
    if start.Some? {
      CutSplits(input, start.value);
    }
    forall r | r in out ensures (start.Some? ==> r.key >= start.value) && (end.Some? ==> r.key < end.value) {
      var o :| 0 <= o < |out| && out[o] == r;
      var i := OutputFromInput(c, m, Fresh(true), o);
    }
  }

  /** The key outputs as many records in its range as in the whole. */
  ghost predicate SameOutputs(c: Config, input: seq<Record>, boundaries: seq<Key>, k: Key) {
    var g := VersionsOf(input, k);
    Outputs(c, g, 0, 0, 0, EnoughFor(c, input, k)) ==
    Outputs(c, g, 0, 0, 0, EnoughFor(c, PartOf(input, boundaries, None, k), k))
  }

  lemma KeySame(c: Config, input: seq<Record>, boundaries: seq<Key>, k: Key)
    requires c.Valid() && Sorted(input) && Bounded(input) && Increasing(boundaries, None)
    ensures VersionsOf(PartsFrom(c, input, boundaries, None), k) == VersionsOf(Compact(c, input), k) <==>
            SameOutputs(c, input, boundaries, k)
  {
    hide Run, PartsFrom, VersionsOf, Outputs, Silent;
    var g := VersionsOf(input, k);
    PartsKeyRun(c, input, boundaries, None, k);
    assert input[0..] == input;
    SilentRun(c, input, k);
    VersionsStack(c, input, k);
    SameRunIff(c, g, k, Silent(c, PartOf(input, boundaries, None, k), k), Silent(c, input, k));
  }

  lemma VersionsStack(c: Config, input: seq<Record>, k: Key)
    requires c.Valid() && Sorted(input) && Bounded(input)
    ensures Stack(c, VersionsOf(input, k), [], k)
  {
    var _, g, _ := SplitAtKey(input, k);
    forall v | 0 <= v < |g| ensures g[v].seqno <= MAX_SEQ {
      var i := VersionIndex(input, k, v);
    }
  }

  /** A split compaction outputs what the unsplit one does if and only if each key, by the guards, outputs as many
      records in its range as in the whole. */
  lemma SplitExactly(c: Config, input: seq<Record>, boundaries: seq<Key>)
    requires c.Valid() && Sorted(input) && Bounded(input) && Increasing(boundaries, None)
    ensures PartsFrom(c, input, boundaries, None) == Compact(c, input) <==>
            forall k :: SameOutputs(c, input, boundaries, k)
  {
    hide Run, PartsFrom, VersionsOf, SameOutputs;
    forall k
      ensures VersionsOf(PartsFrom(c, input, boundaries, None), k) == VersionsOf(Compact(c, input), k) <==>
              SameOutputs(c, input, boundaries, k)
    {
      KeySame(c, input, boundaries, k);
    }
    if forall k :: SameOutputs(c, input, boundaries, k) {
      PartsKeyOrdered(c, input, boundaries, None);
      RunKeyOrdered(c, input, Fresh(true));
      SameByKey(PartsFrom(c, input, boundaries, None), Compact(c, input));
    }
  }

  // ---- A split never keeps less

  lemma {:induction false} MoreIfFirst(c: Config, g: seq<Record>, k: Key, last: nat, n: nat)
    requires Stack(c, g, [], k)
    ensures Outputs(c, g, 0, last, n, 1) <= Outputs(c, g, 0, last, n, 2)
    decreases |g|
  {
    hide Stack;
    if g != [] {
      var r, stripe := g[0], c.StripeOf(g[0]);
      if n == 1 && |g| > 1 && Diverts(c, g) {
        DivertsDiffer(c, g, k, last);
      } else if !r.kind.SingleDeletion? {
        StackTail(c, g, [], k, 1);
        MoreIfFirst(c, g[1..], k, stripe, if stripe == last || ObsoleteTombstone(c, r) then n else n + 1);
      } else if |g| > 1 {
        StackTail(c, g, [], k, 1);
        StackTail(c, g, [], k, 2);
        if !Peeked(c, r, g[1]) {
          MoreIfFirst(c, g[1..], k, stripe, n + 1);
        } else if g[1].kind.SingleDeletion? {
          MoreIfFirst(c, g[1..], k, stripe, n);
        } else if n >= 1 || r.seqno <= c.writeConflict {
          MoreIfFirst(c, g[2..], k, stripe, n);
        } else {
          MoreIfFirst(c, g[2..], k, c.StripeOf(g[1]), n + 2);
        }
      }
    }
  }

  predicate Within(start: Option<Key>, end: Option<Key>, k: Key) {
    (start.Some? ==> start.value <= k) && (end.Some? ==> k < end.value)
  }

  /** The range of a key, and the versions in it. */
  lemma {:induction false} PartIsRange(input: seq<Record>, boundaries: seq<Key>, start: Option<Key>, k: Key)
    returns (lo: Option<Key>, hi: Option<Key>)
    requires Increasing(boundaries, start) && (start.Some? ==> start.value <= k)
    ensures PartOf(input, boundaries, start, k) == RangeOf(input, lo, hi) && Within(lo, hi, k) && RangeOrdered(lo, hi)
    decreases |boundaries|
  {
    if boundaries == [] {
      lo, hi := start, None;
    } else if k < boundaries[0] {
      lo, hi := start, Some(boundaries[0]);
    } else {
      lo, hi := PartIsRange(input, boundaries[1..], Some(boundaries[0]), k);
    }
  }

  lemma RangeVersions(input: seq<Record>, start: Option<Key>, end: Option<Key>, k: Key)
    requires Sorted(input) && RangeOrdered(start, end) && Within(start, end, k)
    ensures VersionsOf(RangeOf(input, start, end), k) == VersionsOf(input, k)
  {
    RangesOrdered(input, start, end);
    var from, to := StartOf(input, start), EndOf(input, end);
    if end.Some? {
      CutSplits(input, end.value);
    }
    VersionsWithin(input, from, to, k);
  }

  lemma VersionsWithin(input: seq<Record>, from: nat, to: nat, k: Key)
    requires from <= to <= |input| && (forall i | 0 <= i < from :: input[i].key != k)
    requires forall i | to <= i < |input| :: input[i].key != k
    ensures VersionsOf(input[from..to], k) == VersionsOf(input, k)
  {
    hide VersionsOf;
    var a, m, b := input[..from], input[from..to], input[to..];
    assert input == a + m + b;
    VersionsOfConcat(a + m, b, k);
    VersionsOfConcat(a, m, k);
    VersionsOfNone(a, k);
    VersionsOfNone(b, k);
  }

  lemma SilentInPart(c: Config, input: seq<Record>, boundaries: seq<Key>, k: Key)
    requires Sorted(input) && Increasing(boundaries, None) && Silent(c, input, k)
    ensures Silent(c, PartOf(input, boundaries, None, k), k)
  {
    hide VersionsOf, Outputs;
    var lo, hi := PartIsRange(input, boundaries, None, k);
    var part := RangeOf(input, lo, hi);
    RangesOrdered(input, lo, hi);
    if lo.Some? {
      CutSplits(input, lo.value);
    }
    forall i | 0 <= i < |part| && part[i].key < k ensures Outputs(c, VersionsOf(part, part[i].key), 0, 0, 0, 1) == 0 {
      assert part[i] == input[StartOf(input, lo) + i];
      RangeVersions(input, lo, hi, part[i].key);
    }
  }

  /** Of each key a split compaction keeps at least as many versions as the unsplit one. */
  lemma SplitKeepsNoLess(c: Config, input: seq<Record>, boundaries: seq<Key>, k: Key)
    requires c.Valid() && Sorted(input) && Bounded(input) && Increasing(boundaries, None)
    ensures |VersionsOf(PartsFrom(c, input, boundaries, None), k)| >= |VersionsOf(Compact(c, input), k)|
  {
    hide Run, PartsFrom, VersionsOf, Outputs, Silent;
    var g := VersionsOf(input, k);
    PartsKeyRun(c, input, boundaries, None, k);
    assert input[0..] == input;
    SilentRun(c, input, k);
    VersionsStack(c, input, k);
    KeyOf(c, g, [], k);
    RunCount(c, g, Fresh(true), k, 0, 0, 2);
    RunCount(c, g, Fresh(false), k, 0, 0, 1);
    MoreIfFirst(c, g, k, 0, 0);
    if Silent(c, input, k) {
      SilentInPart(c, input, boundaries, k);
    }
  }
}
