/** What is output, said with the records of the input and the fields of the configuration only. */
module IteratorOutput {
  import opened Records
  import opened Snapshots
  import opened Compactions
  import opened IteratorSpec
  import opened IteratorGroups
  import opened IteratorGuards
  import opened IteratorMeaning
  import opened IteratorOrder

  /** Every snapshot sees the sequence number. */
  ghost predicate SeenByAll(c: Config, q: nat) {
    forall s | s in c.snapshots :: q <= s
  }

  /** No deeper file has the key in its range. */
  ghost predicate NothingBeneath(p: Compaction, k: Key) {
    || p.bottommost
    || (p.outputLevel > 0 && p.levelStyle
        && forall lvl, i | p.outputLevel < lvl < |p.levels| && 0 <= i < |p.levels[lvl]| ::
             !(p.levels[lvl][i].smallest <= k <= p.levels[lvl][i].largest))
  }

  /** The sequence number of `r` goes: a bottommost compaction, every snapshot sees it, it is not among the deletes to
      preserve, and the key is not the last of the compaction. */
  ghost predicate Squashed(c: Config, r: Record) {
    && c.compaction.Some? && SeenByAll(c, r.seqno)
    && var p := c.compaction.value;
    && p.bottommost && !p.allowIngestBehind && (p.preserveDeletes ==> r.seqno < c.preserveSeqno)
    && r.key != p.largestUserKey
  }

  /** A tombstone that every snapshot sees, with nothing beneath, and that is not to be preserved. */
  ghost predicate Forgotten(c: Config, r: Record) {
    && r.kind.Deletion? && c.compaction.Some? && SeenByAll(c, r.seqno)
    && var p := c.compaction.value;
    && NothingBeneath(p, r.key) && (p.preserveDeletes ==> r.seqno < c.preserveSeqno)
  }

  /** Some read point finds this version of its key. */
  ghost predicate Found(c: Config, input: seq<Record>, i: nat)
    requires i < |input|
  {
    exists s: nat | ReadPoint(c.snapshots, s) ::
      input[i].seqno <= s && forall j | 0 <= j < i && input[j].key == input[i].key :: s < input[j].seqno
  }

  /** The newest version of its key, at sequence 0 under a snapshot numbered 0, is taken for one that was seen
      before. */
  ghost predicate Overlooked(c: Config, input: seq<Record>, i: nat)
    requires i < |input|
  {
    0 in c.snapshots && input[i].seqno == 0 && forall j | 0 <= j < i :: input[j].key != input[i].key
  }

  /** `q` is what became of `p`. */
  ghost predicate Became(c: Config, p: Record, q: Record) {
    && q.key == p.key && q.kind == p.kind && (q.value == p.value || q.value == "")
    && q.seqno == if Squashed(c, p) then 0 else p.seqno
  }

  ghost predicate Places(at: seq<nat>, n: nat) {
    && (forall o | 0 <= o < |at| :: at[o] < n)
    && (forall o, o' | 0 <= o < o' < |at| :: at[o] < at[o'])
  }

  lemma SeenIffEarliest(c: Config, q: nat)
    requires c.Valid() && q <= MAX_SEQ
    ensures SeenByAll(c, q) <==> q <= Earliest(c.snapshots)
  {
    if c.snapshots != [] {
      assert c.snapshots[0] in c.snapshots;
    }
  }

  lemma AbsentIffNothing(p: Compaction, k: Key)
    ensures p.AbsentBeyond(k) <==> NothingBeneath(p, k)
  {
    if !p.AbsentBeyond(k) && p.outputLevel != 0 && p.levelStyle {
      var lvl :| p.outputLevel < lvl < |p.levels| && p.InLevel(lvl, k);
      var i :| 0 <= i < |p.levels[lvl]| && p.Covers(lvl, i, k);
    } else if p.AbsentBeyond(k) && !p.bottommost {
      forall lvl, i | p.outputLevel < lvl < |p.levels| && 0 <= i < |p.levels[lvl]|
        ensures !(p.levels[lvl][i].smallest <= k <= p.levels[lvl][i].largest)
      {
        assert !p.InLevel(lvl, k);
        assert !p.Covers(lvl, i, k);
      }
    }
  }

  lemma PreparedBecame(c: Config, p: Record, v: Bytes)
    requires c.Valid() && p.seqno <= MAX_SEQ && (v == p.value || v == "")
    ensures Became(c, p, c.Prepare(p.(value := v)))
  {
    SeenIffEarliest(c, p.seqno);
  }

  /** The outputs come from the records of `rest` at places `at`. */
  ghost predicate ComeFrom(c: Config, rest: seq<Record>, out: seq<Record>, at: seq<nat>) {
    |at| == |out| && Places(at, |rest|) && forall o | 0 <= o < |at| :: Became(c, rest[at[o]], out[o])
  }

  function Later(at: seq<nat>, n: nat): seq<nat> {
    seq(|at|, o requires 0 <= o < |at| => at[o] + n)
  }

  lemma LaterFrom(c: Config, rest: seq<Record>, n: nat, out: seq<Record>, at: seq<nat>)
    requires n <= |rest| && ComeFrom(c, rest[n..], out, at)
    ensures ComeFrom(c, rest, out, Later(at, n))
  {
    hide Became;
  }

  lemma HeadFrom(c: Config, rest: seq<Record>, n: nat, q: Record, out: seq<Record>, at: seq<nat>)
    requires 1 <= n <= |rest| && ComeFrom(c, rest[n..], out, at) && Became(c, rest[0], q)
    ensures ComeFrom(c, rest, [q] + out, [0] + Later(at, n))
  {
    hide Became;
  }

  /** The outputs come from input records in their order, and each has the sequence number of its own or 0. */
  lemma {:induction false} RunBecame(c: Config, rest: seq<Record>, st: State) returns (at: seq<nat>)
    requires c.Valid() && Bounded(rest) && ClearPending(rest, st)
    ensures ComeFrom(c, rest, Run(c, rest, st), at)
    decreases |rest|
  {
    if rest == [] {
      at := [];
      RunEmpty(c, st);
    } else {
      StepState(c, rest, st);
      RunOnce(c, rest, st);
      var t := Step(c, rest, st);
      hide Run, Step, Became, ComeFrom;
      var later := RunBecame(c, rest[t.used..], t.state);
      var tail := Run(c, rest[t.used..], t.state);
      if t.out.Some? {
        var r: Record :| (r == rest[0] || r == rest[0].(value := "")) && t.out.value == c.Prepare(r);
        PreparedBecame(c, rest[0], r.value);
        assert r == rest[0].(value := r.value);
        HeadFrom(c, rest, t.used, t.out.value, tail, later);
        at := [0] + Later(later, t.used);
      } else {
        LaterFrom(c, rest, t.used, tail, later);
        at := Later(later, t.used);
      }
    }
  }

  /** Which sequence numbers are squashed, for every input. */
  lemma SequenceNumbers(c: Config, input: seq<Record>) returns (at: seq<nat>)
    requires c.Valid() && Bounded(input)
    ensures ComeFrom(c, input, Compact(c, input), at)
  {
    at := RunBecame(c, input, Fresh(true));
  }

  // ---- Puts and deletions

  lemma FoundIffStripe(c: Config, input: seq<Record>, i: nat)
    requires c.Valid() && Sorted(input) && Bounded(input) && i < |input|
    ensures Found(c, input, i) <==>
            forall j | 0 <= j < i && input[j].key == input[i].key :: c.StripeOf(input[j]) != c.StripeOf(input[i])
  {
    var s0 := c.StripeOf(input[i]);
    StripeIsReadPoint(c.snapshots, input[i].seqno);
    VisibleIffStripe(c.snapshots, input[i].seqno, s0);
    forall j | 0 <= j < i && input[j].key == input[i].key
      ensures c.StripeOf(input[j]) != s0 <==> s0 < input[j].seqno
      ensures c.StripeOf(input[j]) == s0 ==>
                forall s | ReadPoint(c.snapshots, s) && input[i].seqno <= s :: input[j].seqno <= s
    {
      assert Before(input[j], input[i]);
      StripeMonotone(c.snapshots, input[i].seqno, input[j].seqno);
      VisibleIffStripe(c.snapshots, input[j].seqno, s0);
      forall s | ReadPoint(c.snapshots, s)
        ensures input[i].seqno <= s <==> s0 <= s
        ensures input[j].seqno <= s <==> c.StripeOf(input[j]) <= s
      {
        VisibleIffStripe(c.snapshots, input[i].seqno, s);
        VisibleIffStripe(c.snapshots, input[j].seqno, s);
      }
    }
  }

  lemma ForgottenIs(c: Config, r: Record)
    requires c.Valid() && r.seqno <= MAX_SEQ
    ensures Forgotten(c, r) <==> ObsoleteTombstone(c, r)
  {
    SeenIffEarliest(c, r.seqno);
    if c.compaction.Some? {
      AbsentIffNothing(c.compaction.value, r.key);
    }
  }

  lemma OverlookedIs(c: Config, input: seq<Record>, i: nat)
    requires c.Valid() && Sorted(input) && Bounded(input) && i < |input|
    ensures Overlooked(c, input, i) <==> c.StripeOf(input[i]) == 0 && !NewerVersion(input, i)
  {
    StripeIsReadPoint(c.snapshots, input[i].seqno);
    VisibleIffStripe(c.snapshots, input[i].seqno, MAX_SEQ);
    if 0 in c.snapshots && input[i].seqno == 0 {
      VisibleIffStripe(c.snapshots, 0, 0);
    }
  }

  /** A version is kept if a read point finds it, except a tombstone that nothing needs and one that is overlooked. */
  ghost predicate Needed(c: Config, input: seq<Record>, i: nat)
    requires i < |input|
  {
    Found(c, input, i) && !Forgotten(c, input[i]) && !Overlooked(c, input, i)
  }

  lemma SurvivesIffNeeded(c: Config, input: seq<Record>, i: nat)
    requires c.Valid() && Sorted(input) && Bounded(input) && i < |input|
    ensures Survives(c, input, i) <==> Needed(c, input, i)
  {
    FoundIffStripe(c, input, i);
    ForgottenIs(c, input[i]);
    OverlookedIs(c, input, i);
  }

  lemma {:induction false} SurvivorsNeeded(c: Config, input: seq<Record>, i: nat) returns (at: seq<nat>)
    requires c.Valid() && Sorted(input) && Bounded(input) && i <= |input|
    ensures ComeFrom(c, input, Survivors(c, input, i), at)
    ensures forall o | 0 <= o < |at| :: i <= at[o] && Survivors(c, input, i)[o].value == input[at[o]].value
    ensures forall x | i <= x < |input| :: x in at <==> Needed(c, input, x)
    decreases |input| - i
  {
    hide Survives, Needed, Became;
    if i == |input| {
      at := [];
    } else {
      var later := SurvivorsNeeded(c, input, i + 1);
      SurvivesIffNeeded(c, input, i);
      PreparedBecame(c, input[i], input[i].value);
      assert input[i].(value := input[i].value) == input[i];
      at := if Survives(c, input, i) then [i] + later else later;
    }
  }

  /** For puts and deletions: exactly the needed versions are output, in their order, with their values. */
  lemma PlainOutputs(c: Config, input: seq<Record>) returns (at: seq<nat>)
    requires c.Valid() && Sorted(input) && Bounded(input) && NoSingleDelete(input)
    ensures ComeFrom(c, input, Compact(c, input), at)
    ensures forall o | 0 <= o < |at| :: Compact(c, input)[o].value == input[at[o]].value
    ensures forall i | 0 <= i < |input| :: i in at <==> Needed(c, input, i)
  {
    CompactionIsFilter(c, input);
    at := SurvivorsNeeded(c, input, 0);
  }

  // ---- A single delete with nothing to delete

  /** A single delete that is its key's only input record goes exactly if every snapshot sees it and nothing is
      beneath; otherwise it keeps its sequence number. */
  lemma LoneSingleDelete(c: Config, input: seq<Record>, k: Key, r: Record)
    requires c.Valid() && Sorted(input) && r.seqno <= MAX_SEQ && VersionsOf(input, k) == [r] && r.kind.SingleDeletion?
    ensures var gone := c.compaction.Some? && SeenByAll(c, r.seqno) && NothingBeneath(c.compaction.value, k);
            VersionsOf(Compact(c, input), k) == if gone then [] else [r]
  {
    hide VersionsOf, Compact;
    var first := KeyRun(c, input, k);
    var i := VersionIndex(input, k, 0);
    var t := Step(c, [r], Fresh(first));
    RunOnce(c, [r], Fresh(first));
    assert [r][1..] == [];
    RunEmpty(c, t.state);
    SeenIffEarliest(c, r.seqno);
    if c.compaction.Some? {
      AbsentIffNothing(c.compaction.value, k);
    }
  }

  // ---- A single delete over its put

  /** No read point tells the two versions apart. */
  ghost predicate SeenTogether(c: Config, r: Record, p: Record) {
    forall s: nat | ReadPoint(c.snapshots, s) && p.seqno <= s :: r.seqno <= s
  }

  lemma TogetherIff(c: Config, r: Record, p: Record)
    requires c.Valid() && p.seqno < r.seqno <= MAX_SEQ && (p.seqno == 0 ==> 0 !in c.snapshots)
    ensures SeenTogether(c, r, p) <==> Peeked(c, r, p)
    ensures SeenTogether(c, r, p) <==> c.StripeOf(r) == c.StripeOf(p)
    ensures c.StripeOf(p) != 0
  {
    var t, u := c.StripeOf(r), c.StripeOf(p);
    StripeIsReadPoint(c.snapshots, p.seqno);
    StripeMonotone(c.snapshots, p.seqno, r.seqno);
    VisibleIffStripe(c.snapshots, p.seqno, u);
    VisibleIffStripe(c.snapshots, r.seqno, u);
    SameStripeIffAbovePrevious(c.snapshots, p.seqno, r.seqno);
    forall s: nat | ReadPoint(c.snapshots, s) && p.seqno <= s
      ensures t == u ==> r.seqno <= s
    {
      VisibleIffStripe(c.snapshots, p.seqno, s);
      VisibleIffStripe(c.snapshots, r.seqno, s);
    }
  }

  /** A key with just a put and its single delete: both go if no read point tells them apart and no transaction needs
      the delete; if one does the put is emptied, and if a read point does both stay as they are. */
  lemma PairOutputs(c: Config, input: seq<Record>, k: Key, r: Record, p: Record)
    requires c.Valid() && Sorted(input) && Bounded(input) && VersionsOf(input, k) == [r, p]
    requires r.kind.SingleDeletion? && p.kind.Value? && (p.seqno == 0 ==> 0 !in c.snapshots)
    ensures VersionsOf(Compact(c, input), k) ==
            if !SeenTogether(c, r, p) then [r, if Squashed(c, p) then p.(seqno := 0) else p]
            else if r.seqno <= c.writeConflict then []
            else [r, p.(value := "")]
  {
    hide VersionsOf, Compact, Run;
    var first := KeyRun(c, input, k);
    var i := VersionIndex(input, k, 0);
    var j := VersionIndex(input, k, 1);
    var _, g, _ := SplitAtKey(input, k);
    TogetherIff(c, r, p);
    SeenIffEarliest(c, p.seqno);
    SeenIffEarliest(c, r.seqno);
    WriteConflictLater(c);
    NotFirst(c, r, p);
    PairRun(c, r, p, first);
  }

  lemma WriteConflictLater(c: Config)
    requires c.Valid()
    ensures Earliest(c.snapshots) <= c.writeConflict
  {
  }

  lemma NotFirst(c: Config, r: Record, p: Record)
    requires c.Valid() && p.seqno < r.seqno <= MAX_SEQ
    ensures c.StripeOf(r) != c.StripeOf(p) ==> r.seqno > Earliest(c.snapshots)
  {
    if r.seqno <= Earliest(c.snapshots) {
      FirstStripe(c.snapshots, r.seqno);
      FirstStripe(c.snapshots, p.seqno);
    }
  }

  lemma PairRun(c: Config, r: Record, p: Record, first: bool)
    requires r.key == p.key && r.kind.SingleDeletion? && p.kind.Value? && c.StripeOf(p) != 0
    requires (Peeked(c, r, p) <==> c.StripeOf(r) == c.StripeOf(p)) && Earliest(c.snapshots) <= c.writeConflict
    requires c.StripeOf(r) != c.StripeOf(p) ==> r.seqno > Earliest(c.snapshots)
    requires p.seqno < r.seqno
    ensures Run(c, [r, p], Fresh(first)) ==
            if !Peeked(c, r, p) then [r, c.Prepare(p)]
            else if r.seqno <= c.writeConflict then []
            else [r, c.Prepare(p.(value := ""))]
  {
    hide Run;
    var t := Step(c, [r, p], Fresh(first));
    RunOnce(c, [r, p], Fresh(first));
    assert [r, p][1..] == [p] && [r, p][2..] == [];
    if t.used == 2 {
      RunEmpty(c, t.state);
    } else {
      var u := Step(c, [p], t.state);
      RunOnce(c, [p], t.state);
      assert [p][1..] == [];
      RunEmpty(c, u.state);
    }
  }
}
