/** Guarantees that need no assumption on how single deletes are used: the output is sorted, it keeps
    the evidence that transactions look for, and for puts and deletions it is an exact filter. */
module IteratorOrder {
  import opened Options
  import opened Records
  import opened Snapshots
  import opened IteratorSpec
  import opened IteratorGroups
  import opened IteratorGuards
  import opened IteratorMeaning

  // ---- The output is sorted

  /** The state after `p` was output: if its sequence was squashed, its stripe is settled. */
  ghost predicate Settled(c: Config, rest: seq<Record>, st: State, p: Record) {
    && ClearPending(rest, st)
    && (c.Zeroes(p) && p.seqno > 0 && rest != [] && rest[0].key == p.key ==>
          !st.clear && st.hasKey && st.key == p.key && st.snapshot == Earliest(c.snapshots))
  }

  /** In a settled first stripe of a bottommost compaction nothing more is output. */
  lemma SettledStep(c: Config, rest: seq<Record>, st: State, p: Record)
    requires c.Valid() && rest != [] && Settled(c, rest, st, p)
    requires c.Zeroes(p) && p.seqno > 0 && rest[0].key == p.key && rest[0].seqno < p.seqno
    ensures Step(c, rest, st).out.None?
    ensures var t := Step(c, rest, st);
            rest[t.used..] != [] && rest[t.used].key == p.key ==>
              !t.state.clear && t.state.hasKey && t.state.key == p.key && t.state.snapshot == Earliest(c.snapshots)
  {
    FirstStripe(c.snapshots, rest[0].seqno);
    EarliestIsLeast(c.snapshots, c.writeConflict);
  }

  lemma {:induction false} OutputAfter(c: Config, rest: seq<Record>, st: State, p: Record, o: nat)
    requires c.Valid() && Sorted(rest) && Leads(p, rest) && Settled(c, rest, st, p) && o < |Run(c, rest, st)|
    ensures Before(c.Prepare(p), Run(c, rest, st)[o])
    decreases |rest|
  {
    hide Run;
    if rest == [] {
      RunEmpty(c, st);
    } else if c.Zeroes(p) && p.seqno > 0 && rest[0].key == p.key {
      SettledStep(c, rest, st, p);
      RunOnce(c, rest, st);
      StepState(c, rest, st);
      var t := Step(c, rest, st);
      assert Run(c, rest, st) == Run(c, rest[t.used..], t.state);
      SortedTail(rest, t.used);
      OutputAfter(c, rest[t.used..], t.state, p, o);
    } else {
      var i := OutputFromInput(c, rest, st, o);
      assert Before(p, rest[0]) && Before(p, rest[i]);
      assert i > 0 ==> Before(rest[0], rest[i]);
    }
  }

  /** What a turn that outputs leaves behind. */
  lemma EmittedSettles(c: Config, rest: seq<Record>, st: State)
    requires c.Valid() && rest != [] && Sorted(rest) && ClearPending(rest, st) && ClearAbove(c, rest, st)
    requires Step(c, rest, st).out.Some?
    ensures var t := Step(c, rest, st); t.used == 1 && Settled(c, rest[1..], t.state, rest[0])
  {
    var r := rest[0];
    StepState(c, rest, st);
    if c.Zeroes(r) && r.seqno > 0 {
      FirstStripe(c.snapshots, r.seqno);
      EarliestIsLeast(c.snapshots, c.writeConflict);
    }
  }

  /** A put kept back by a single delete is too new for its sequence to be squashed. */
  ghost predicate ClearAbove(c: Config, rest: seq<Record>, st: State) {
    st.clear ==> rest != [] && (rest[0].seqno > Earliest(c.snapshots) || rest[0].seqno == 0)
  }

  lemma ClearAboveKept(c: Config, rest: seq<Record>, st: State)
    requires c.Valid() && rest != [] && Bounded(rest)
    ensures var t := Step(c, rest, st); ClearAbove(c, rest[t.used..], t.state)
  {
    var t := Step(c, rest, st);
    if t.state.clear {
      EarliestIsLeast(c.snapshots, c.writeConflict);
      PreviousInside(c.snapshots, rest[0].seqno);
    }
  }

  /** The output is sorted, so a table can be built from it, for every use of single deletes. */
  lemma {:induction false} OutputSorted(c: Config, rest: seq<Record>, st: State)
    requires c.Valid() && Sorted(rest) && Bounded(rest) && ClearPending(rest, st) && ClearAbove(c, rest, st)
    ensures Sorted(Run(c, rest, st))
    decreases |rest|
  {
    hide Run;
    hide Step;
    hide Sorted;
    hide Config.Prepare;
    if rest == [] {
      RunEmpty(c, st);
      SortedEmpty();
    } else {
      StepState(c, rest, st);
      ClearAboveKept(c, rest, st);
      RunOnce(c, rest, st);
      var t := Step(c, rest, st);
      var tail := Run(c, rest[t.used..], t.state);
      SortedTail(rest, t.used);
      OutputSorted(c, rest[t.used..], t.state);
      if t.out.Some? {
        EmittedSettles(c, rest, st);
        forall o | 0 <= o < |tail| ensures Before(t.out.value, tail[o]) {
          OutputAfter(c, rest[1..], t.state, rest[0], o);
          PrepareKeepsOrder(c, rest[0], "", tail[o]);
        }
        SortedCons(t.out.value, tail);
      } else {
        assert Run(c, rest, st) == tail;
      }
    }
  }

  lemma SortedEmpty()
    ensures Sorted([])
  {
  }

  /** Order looks at keys and sequence numbers only. */
  lemma PrepareKeepsOrder(c: Config, p: Record, v: Bytes, r: Record)
    ensures Before(c.Prepare(p.(value := v)), r) <==> Before(c.Prepare(p), r)
  {
  }

  lemma SortedCons(r: Record, tail: seq<Record>)
    requires Sorted(tail) && forall o | 0 <= o < |tail| :: Before(r, tail[o])
    ensures Sorted([r] + tail)
  {
  }

  lemma CompactionSorted(c: Config, input: seq<Record>)
    requires c.Valid() && Sorted(input) && Bounded(input)
    ensures Sorted(Compact(c, input))
  {
    OutputSorted(c, input, Fresh(true));
  }

  // ---- Write-conflict evidence

  /** Single deletes only, down to one at sequence 0, with no other snapshot between 0 and the newest. */
  predicate DeletesToZero(c: Config, g: seq<Record>) {
    && g != [] && (forall i | 0 <= i < |g| :: g[i].kind.SingleDeletion?)
    && g[|g| - 1].seqno == 0 && Previous(c.snapshots, g[0].seqno) == 0
  }

  ghost predicate Evidence(c: Config, out: seq<Record>, k: Key) {
    exists o :: 0 <= o < |out| && out[o].key == k && out[o].seqno > c.writeConflict
  }

  /** The turn on a record newer than the earliest write-conflict snapshot, with nothing output so far: it is output, or
      it is a single delete above another one. */
  lemma EvidenceTurn(c: Config, g: seq<Record>, st: State, k: Key)
    requires c.Valid() && History(g, k) && Bounded(g) && g != [] && !st.clear && g[0].seqno > c.writeConflict
    requires !st.Enter(k).outputted && (g[0].kind.SingleDeletion? || Last(st, k) == 0)
    ensures var t := Step(c, g, st);
            && (t.out.Some? ==> t.out.value.key == k && t.out.value.seqno > c.writeConflict && !DeletesToZero(c, g))
            && (t.out.None? ==>
                  && |g| > 1 && t.used == 1 && g[0].kind.SingleDeletion? && g[1].kind.SingleDeletion?
                  && !t.state.clear && !t.state.Enter(k).outputted && Peeked(c, g[0], g[1]))
  {
    EarliestIsLeast(c.snapshots, c.writeConflict);
    AboveFirstStripe(c.snapshots, g[0].seqno);
  }

  lemma PeekedDelete(c: Config, g: seq<Record>, k: Key)
    requires c.Valid() && History(g, k) && Bounded(g) && |g| > 1 && g[0].seqno > c.writeConflict
    requires g[0].kind.SingleDeletion? && g[1].kind.SingleDeletion? && Peeked(c, g[0], g[1])
    ensures g[1].seqno > c.writeConflict ==> (DeletesToZero(c, g) <==> DeletesToZero(c, g[1..]))
    ensures g[1].seqno <= c.writeConflict ==> DeletesToZero(c, g) && c.writeConflict == 0 && |g| == 2
  {
    PreviousInside(c.snapshots, g[0].seqno);
    PreviousInside(c.snapshots, g[1].seqno);
    assert g[1..][|g| - 2] == g[|g| - 1];
    assert |g| > 2 ==> g[2].seqno < g[1].seqno;
    if DeletesToZero(c, g[1..]) {
      assert forall i | 0 < i < |g| :: g[i] == g[1..][i - 1];
    }
  }

  /** A key written after the earliest write-conflict snapshot still shows a record after it, except in one case. */
  lemma {:induction false} EvidenceInRun(c: Config, g: seq<Record>, st: State, k: Key)
    requires c.Valid() && History(g, k) && Bounded(g) && g != [] && !st.clear && g[0].seqno > c.writeConflict
    requires !st.Enter(k).outputted && (g[0].kind.SingleDeletion? || Last(st, k) == 0)
    ensures Evidence(c, Run(c, g, st), k) <==> !DeletesToZero(c, g)
    decreases |g|
  {
    hide Run, Step, DeletesToZero;
    RunOnce(c, g, st);
    EvidenceTurn(c, g, st, k);
    var t := Step(c, g, st);
    if t.out.Some? {
      assert Run(c, g, st)[0] == t.out.value;
    } else {
      assert Run(c, g, st) == Run(c, g[1..], t.state);
      PeekedDelete(c, g, k);
      if g[1].seqno > c.writeConflict {
        EvidenceInRun(c, g[1..], t.state, k);
      } else {
        forall o | 0 <= o < |Run(c, g[1..], t.state)| ensures Run(c, g[1..], t.state)[o].seqno == 0 {
          var i := OutputFromInput(c, g[1..], t.state, o);
        }
      }
    }
  }

  /** Transactions still see that a key was written, for every use of single deletes: if the newest input record of `k`
      is newer than the earliest write-conflict snapshot, some output record is, except over single deletes down to
      0. */
  lemma WriteConflictEvidence(c: Config, input: seq<Record>, k: Key)
    requires c.Valid() && Sorted(input) && Bounded(input)
    requires VersionsOf(input, k) != [] && VersionsOf(input, k)[0].seqno > c.writeConflict
    ensures Evidence(c, Compact(c, input), k) <==> !DeletesToZero(c, VersionsOf(input, k))
  {
    hide Run, DeletesToZero;
    var first := KeyRun(c, input, k);
    var _, g, _ := SplitAtKey(input, k);
    forall v | 0 <= v < |g| ensures g[v].seqno <= MAX_SEQ {
      var i := VersionIndex(input, k, v);
    }
    EvidenceInRun(c, g, Fresh(first), k);
    EvidenceOfVersions(c, Compact(c, input), k);
  }

  lemma {:induction false} EvidenceOfVersions(c: Config, out: seq<Record>, k: Key)
    ensures Evidence(c, out, k) <==> Evidence(c, VersionsOf(out, k), k)
  {
    if out != [] {
      EvidenceOfVersions(c, out[1..], k);
      EvidenceHead(c, out, k);
      if out[0].key == k {
        var v := VersionsOf(out, k);
        assert v[1..] == VersionsOf(out[1..], k);
        EvidenceHead(c, v, k);
      }
    }
  }

  lemma EvidenceHead(c: Config, out: seq<Record>, k: Key)
    requires out != []
    ensures Evidence(c, out, k) <==> (out[0].key == k && out[0].seqno > c.writeConflict) || Evidence(c, out[1..], k)
  {
    if Evidence(c, out[1..], k) {
      var o :| 0 <= o < |out[1..]| && out[1..][o].key == k && out[1..][o].seqno > c.writeConflict;
      assert out[o + 1] == out[1..][o];
    }
    if Evidence(c, out, k) {
      var o :| 0 <= o < |out| && out[o].key == k && out[o].seqno > c.writeConflict;
      assert o > 0 ==> out[1..][o - 1] == out[o];
    }
  }

  /** Evidence that is lost: of two single deletes the newer goes, and the older has sequence 0. */
  lemma EvidenceLost(c: Config, input: seq<Record>)
    requires c == Config([0], 0, None, 0)
    requires input == [Record(7, 1, SingleDeletion, ""), Record(7, 0, SingleDeletion, "")]
    ensures c.Valid() && Sorted(input) && Bounded(input) && VersionsOf(input, 7)[0].seqno > c.writeConflict
    ensures !Evidence(c, Compact(c, input), 7)
  {
    VersionsOfAll(input, 7);
    assert DeletesToZero(c, input);
    WriteConflictEvidence(c, input, 7);
  }

  // ---- Puts and deletions: an exact filter

  ghost predicate NewerVersion(input: seq<Record>, i: nat)
    requires i < |input|
  {
    exists j :: 0 <= j < i && input[j].key == input[i].key
  }

  /** A record survives unless a newer version of its key shares its stripe, or it is obsolete, or it is the newest
      version of its key and in the stripe numbered 0. */
  ghost predicate Survives(c: Config, input: seq<Record>, i: nat)
    requires i < |input|
  {
    && (forall j | 0 <= j < i && input[j].key == input[i].key :: c.StripeOf(input[j]) != c.StripeOf(input[i]))
    && !ObsoleteTombstone(c, input[i]) && (c.StripeOf(input[i]) == 0 ==> NewerVersion(input, i))
  }

  ghost function Survivors(c: Config, input: seq<Record>, i: nat): seq<Record>
    requires i <= |input|
    decreases |input| - i
  {
    if i == |input| then []
    else (if Survives(c, input, i) then [c.Prepare(input[i])] else []) + Survivors(c, input, i + 1)
  }

  /** It is enough to look at the record just before. */
  lemma SurvivesByNeighbour(c: Config, input: seq<Record>, i: nat)
    requires c.Valid() && Sorted(input) && Bounded(input) && 0 < i < |input|
    ensures Survives(c, input, i) <==>
            && !ObsoleteTombstone(c, input[i])
            && c.StripeOf(input[i]) != if input[i - 1].key == input[i].key then c.StripeOf(input[i - 1]) else 0
  {
    assert Before(input[i - 1], input[i]);
    forall j | 0 <= j < i && input[j].key == input[i].key
      ensures input[i - 1].key == input[i].key
      ensures c.StripeOf(input[i]) <= c.StripeOf(input[i - 1]) <= c.StripeOf(input[j])
    {
      if j < i - 1 {
        assert Before(input[j], input[i - 1]);
        StripeMonotone(c.snapshots, input[i - 1].seqno, input[j].seqno);
      }
      StripeMonotone(c.snapshots, input[i].seqno, input[i - 1].seqno);
    }
  }

  lemma {:induction false} RunSurvives(c: Config, input: seq<Record>, i: nat, st: State)
    requires c.Valid() && Sorted(input) && Bounded(input) && i <= |input| && NoSingleDelete(input) && !st.clear
    requires if i == 0 then !st.hasKey
             else st.hasKey && st.key == input[i - 1].key && st.snapshot == c.StripeOf(input[i - 1])
    ensures Run(c, input[i..], st) == Survivors(c, input, i)
    decreases |input| - i
  {
    hide Run, Survives;
    if i == |input| {
      RunEmpty(c, st);
    } else {
      var rest := input[i..];
      RunOnce(c, rest, st);
      var t := Step(c, rest, st);
      assert rest[t.used..] == input[i + 1..];
      RunSurvives(c, input, i + 1, t.state);
      if i > 0 {
        SurvivesByNeighbour(c, input, i);
      } else {
        SurvivesFirst(c, input);
      }
    }
  }

  lemma SurvivesFirst(c: Config, input: seq<Record>)
    requires input != []
    ensures Survives(c, input, 0) <==> !ObsoleteTombstone(c, input[0]) && c.StripeOf(input[0]) != 0
  {
  }

  /** For puts and deletions the stateful loop is a filter that judges each record by itself. */
  lemma CompactionIsFilter(c: Config, input: seq<Record>)
    requires c.Valid() && Sorted(input) && Bounded(input) && NoSingleDelete(input)
    ensures Compact(c, input) == Survivors(c, input, 0)
  {
    assert input[0..] == input;
    RunSurvives(c, input, 0, Fresh(true));
  }
}
