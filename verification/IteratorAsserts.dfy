/** When the assertions in the loop and in `PrepareOutput` hold. */
module IteratorAsserts {
  import opened Options
  import opened Records
  import opened Snapshots
  import opened IteratorSpec
  import opened IteratorGroups
  import opened IteratorGuards
  import opened IteratorMeaning
  import opened IteratorZero

  /** A single delete that is followed by a record of its key is followed by a put. */
  predicate DeletesOnePut(rest: seq<Record>) {
    forall i | 0 <= i < |rest| - 1 && rest[i].kind.SingleDeletion? && rest[i + 1].key == rest[i].key ::
      rest[i + 1].kind.Value?
  }

  /** What the loop asserts of an emptied record, and `PrepareOutput` of a squashed one. */
  predicate TurnAsserts(c: Config, rest: seq<Record>, st: State)
    requires rest != []
  {
    var r := rest[0];
    && (st.clear ==> r.kind.Value? && c.StripeOf(r) == st.Enter(r.key).snapshot)
    && (Step(c, rest, st).out.Some? && c.Zeroes(r) ==> r.kind.Value?)
  }

  ghost predicate RunAsserts(c: Config, rest: seq<Record>, st: State)
    decreases |rest|
  {
    rest != [] ==>
      && TurnAsserts(c, rest, st)
      && var t := Step(c, rest, st); RunAsserts(c, rest[t.used..], t.state)
  }

  lemma AssertsOnce(c: Config, rest: seq<Record>, st: State)
    ensures rest == [] ==> RunAsserts(c, rest, st)
    ensures rest != [] ==>
              var t := Step(c, rest, st);
              1 <= t.used <= |rest|
              && (RunAsserts(c, rest, st) <==> TurnAsserts(c, rest, st) && RunAsserts(c, rest[t.used..], t.state))
  {
  }

  // ---- One key

  /** A record kept back is a put of the stripe just seen. */
  ghost predicate Holding(c: Config, rest: seq<Record>, st: State) {
    st.clear ==>
      && rest != [] && st.hasKey && rest[0].key == st.key
      && rest[0].kind.Value? && c.StripeOf(rest[0]) == st.snapshot
  }

  lemma HoldingNext(c: Config, g: seq<Record>, d: seq<Record>, k: Key, st: State)
    requires Stack(c, g, d, k) && g != [] && PeeksOk(c, g) && DeletesOnePut(g) && Holding(c, g, st)
    ensures var t := Step(c, g, st);
            && 1 <= t.used <= |g| && TurnAsserts(c, g, st)
            && Holding(c, g[t.used..], t.state)
  {
    EarliestIsLeast(c.snapshots, c.writeConflict);
    PeekIsStripe(c, g, d, k);
    NextIsPut(g);
    hide DeletesOnePut, PeeksOk, Config.Prepare;
  }

  lemma NextIsPut(g: seq<Record>)
    requires DeletesOnePut(g)
    ensures |g| > 1 && g[0].kind.SingleDeletion? && g[1].key == g[0].key ==> g[1].kind.Value?
  {
  }

  lemma DeletesOnePutRest(g: seq<Record>, n: nat)
    requires DeletesOnePut(g) && n <= |g|
    ensures DeletesOnePut(g[n..])
  {
  }

  /** Where no single delete is mistaken the assertions hold. */
  lemma {:induction false} AssertsFine(c: Config, g: seq<Record>, d: seq<Record>, k: Key, st: State)
    requires Stack(c, g, d, k) && PeeksOk(c, g) && DeletesOnePut(g) && Holding(c, g, st)
    ensures RunAsserts(c, g, st)
    decreases |g|
  {
    hide Step, RunAsserts, TurnAsserts, Stack, PeeksOk, DeletesOnePut, Holding;
    AssertsOnce(c, g, st);
    if g != [] {
      HoldingNext(c, g, d, k, st);
      var t := Step(c, g, st);
      StackRest(c, g, d, k, t.used);
      DeletesOnePutRest(g, t.used);
      AssertsFine(c, g[t.used..], d, k, t.state);
    }
  }

  /** Up to the last single delete the assertions do not see what lies below it. */
  lemma {:induction false} AssertsToDelete(c: Config, h: seq<Record>, r: Record, z: Record, st: State)
    requires r.kind.SingleDeletion? && RunAsserts(c, h + [r], st)
    ensures RunAsserts(c, h + [r, z], st) <==> RunAsserts(c, [r, z], StateAt(c, h + [r, z], st, 2))
    decreases |h|
  {
    hide Step, RunAsserts, StateAt;
    var g, g' := h + [r, z], h + [r];
    StateOnce(c, g, st, 2);
    if h == [] {
      assert g == [r, z];
    } else {
      StepsAlike(c, h, r, z, st);
      assert g[0] == g'[0];
      AssertsOnce(c, g, st);
      AssertsOnce(c, g', st);
      var t := Step(c, g, st);
      assert t.used <= |h| by {
        StepUsedTwo(c, g, st);
      }
      assert g[t.used..] == h[t.used..] + [r, z] && g'[t.used..] == h[t.used..] + [r];
      AssertsToDelete(c, h[t.used..], r, z, t.state);
    }
  }

  lemma StepUsedTwo(c: Config, g: seq<Record>, st: State)
    requires g != []
    ensures 1 <= Step(c, g, st).used <= 2
  {
  }

  /** A put at 0 that a mistaken single delete keeps and empties, although it is in another stripe. */
  predicate EmptiesAtZero(c: Config, g: seq<Record>, enough: nat) {
    Crossing(c, g) && !DropsPair(c, g, enough)
  }

  lemma TailAsserts(c: Config, r: Record, z: Record, st: State, k: Key, n: nat, enough: nat)
    requires r.key == k == z.key && r.kind.SingleDeletion? && z.kind.Value? && Counts(st, k, n, enough)
    requires Peeked(c, r, z) && !c.Zeroes(r) && c.StripeOf(r) != c.StripeOf(z)
    ensures RunAsserts(c, [r, z], st) <==> n >= enough || r.seqno <= c.writeConflict
  {
    var g := [r, z];
    var t := Step(c, g, st);
    AssertsOnce(c, g, st);
    assert g[1..] == [z] && g[2..] == [];
    AssertsOnce(c, [], t.state);
    AssertsOnce(c, [z], t.state);
    hide RunAsserts;
  }

  /** For one key the assertions fail exactly if a put at 0 is emptied. */
  lemma HistoryAsserts(c: Config, g: seq<Record>, k: Key, first: bool)
    requires Stack(c, g, [], k) && DeletesOnePut(g)
    ensures RunAsserts(c, g, Fresh(first)) <==> !EmptiesAtZero(c, g, Enough(first))
  {
    hide RunAsserts, Stack, Outputs, StateAt, Run;
    if Crossing(c, g) {
      CrossedFacts(c, g, [], k);
      var h, r, z := g[..|g| - 2], g[|g| - 2], g[|g| - 1];
      assert h + [r] == g[..|g| - 1];
      AssertsFine(c, h + [r], [], k, Fresh(first));
      var out, next := RunToDelete(c, h, r, z, Fresh(first), k, 0, 0, Enough(first));
      AssertsToDelete(c, h, r, z, Fresh(first));
      CrossedStripes(c, g, k);
      TailAsserts(c, r, z, next, k, Outputs(c, g, 2, 0, 0, Enough(first)), Enough(first));
    } else {
      if g != [] {
        NotMistaken(c, g, [], k);
      }
      AssertsFine(c, g, [], k, Fresh(first));
    }
  }

  lemma CrossedStripes(c: Config, g: seq<Record>, k: Key)
    requires Stack(c, g, [], k) && Crossing(c, g)
    ensures c.StripeOf(g[|g| - 2]) != c.StripeOf(g[|g| - 1]) && !c.Zeroes(g[|g| - 2])
  {
    CrossedFacts(c, g, [], k);
    VisibleIffStripe(c.snapshots, g[|g| - 2].seqno, MAX_SEQ);
  }

  /** A put at 0 that is emptied for a transaction. */
  lemma AssertionFails(c: Config, g: seq<Record>)
    requires c == Config([0], 0, None, 0) && g == [Record(7, 1, SingleDeletion, ""), Record(7, 0, Value, "x")]
    ensures c.Valid() && Sorted(g) && Bounded(g) && DeletesOnePut(g) && !RunAsserts(c, g, Fresh(true))
  {
    hide RunAsserts;
    assert g == [g[0], g[1]];
    TailAsserts(c, g[0], g[1], Fresh(true), 7, 0, 2);
  }

  // ---- All keys

  lemma AssertsForget(c: Config, rest: seq<Record>, st: State)
    requires Leaves(st, rest)
    ensures RunAsserts(c, rest, st) <==> RunAsserts(c, rest, Fresh(st.first))
  {
    if rest != [] {
      assert st.Enter(rest[0].key) == Fresh(st.first).Enter(rest[0].key);
    }
  }

  lemma {:induction false} AssertsSplit(c: Config, a: seq<Record>, b: seq<Record>, st: State)
    requires ClearPending(a, st) && (a == [] ==> Leaves(st, b))
    requires a != [] && b != [] ==> a[|a| - 1].key != b[0].key
    ensures RunAsserts(c, a + b, st) <==>
            RunAsserts(c, a, st) && RunAsserts(c, b, Fresh(st.first && Run(c, a, st) == []))
    decreases |a|
  {
    hide Step, Run, RunAsserts;
    AssertsOnce(c, a, st);
    if a == [] {
      assert a + b == b;
      AssertsForget(c, b, st);
      RunEmpty(c, st);
    } else {
      StepLocal(c, a, b, st);
      StepState(c, a, st);
      var t := Step(c, a, st);
      assert (a + b)[t.used..] == a[t.used..] + b && (a + b)[0] == a[0];
      AssertsSplit(c, a[t.used..], b, t.state);
      AssertsOnce(c, a + b, st);
      RunOnce(c, a, st);
      JoinOutput(t.out, Run(c, a[t.used..], t.state), []);
    }
  }

  ghost predicate KeyAsserts(c: Config, input: seq<Record>, k: Key) {
    RunAsserts(c, VersionsOf(input, k), Fresh(NothingBefore(Compact(c, input), k)))
  }

  /** The input before, at and after a key. */
  lemma AssertsParts(c: Config, input: seq<Record>, a: seq<Record>, g: seq<Record>, b: seq<Record>, k: Key)
    requires input == a + (g + b) && g == VersionsOf(input, k)
    requires forall i | 0 <= i < |a| :: a[i].key < k
    requires forall i | 0 <= i < |g| :: g[i].key == k
    requires forall i | 0 <= i < |b| :: b[i].key > k
    ensures RunAsserts(c, g + b, Fresh(Run(c, a, Fresh(true)) == [])) <==>
            KeyAsserts(c, input, k) && RunAsserts(c, b, Fresh(Run(c, a + g, Fresh(true)) == []))
    ensures RunAsserts(c, input, Fresh(true)) <==>
            RunAsserts(c, a, Fresh(true)) && RunAsserts(c, g + b, Fresh(Run(c, a, Fresh(true)) == []))
  {
    hide Run, RunAsserts, VersionsOf, NothingBefore;
    var first := Run(c, a, Fresh(true)) == [];
    AssertsSplit(c, a, g + b, Fresh(true));
    AssertsSplit(c, g, b, Fresh(first));
    NothingSoFar(c, a, g, true);
    FirstAtKey(c, a, g + b, k);
  }

  lemma NothingSoFar(c: Config, a: seq<Record>, g: seq<Record>, first: bool)
    requires a != [] && g != [] ==> a[|a| - 1].key != g[0].key
    ensures Run(c, a + g, Fresh(first)) == [] <==>
            Run(c, a, Fresh(first)) == [] && Run(c, g, Fresh(first && Run(c, a, Fresh(first)) == [])) == []
  {
    hide Run;
    RunSplit(c, a, g, Fresh(first));
  }

  lemma FirstAtKey(c: Config, a: seq<Record>, rest: seq<Record>, k: Key)
    requires (forall i | 0 <= i < |a| :: a[i].key < k) && forall i | 0 <= i < |rest| :: rest[i].key >= k
    ensures NothingBefore(Compact(c, a + rest), k) <==> Run(c, a, Fresh(true)) == []
  {
    hide Run;
    RunSplit(c, a, rest, Fresh(true));
    OutputBefore(c, a, Fresh(true), rest, Fresh(Run(c, a, Fresh(true)) == []), k);
  }

  /** From a position where a key begins, all keys' assertions make those of the rest. */
  lemma {:induction false} KeysAssert(c: Config, input: seq<Record>, m: nat)
    requires Sorted(input) && m <= |input| && (0 < m < |input| ==> input[m - 1].key < input[m].key)
    requires forall i | m <= i < |input| :: KeyAsserts(c, input, input[i].key)
    ensures RunAsserts(c, input[m..], Fresh(Run(c, input[..m], Fresh(true)) == []))
    decreases |input| - m
  {
    hide Run, RunAsserts, VersionsOf, KeyAsserts, Sorted;
    if m == |input| {
      AssertsOnce(c, input[m..], Fresh(Run(c, input[..m], Fresh(true)) == []));
    } else {
      var n := BlockAt(input, m);
      KeysAssert(c, input, n);
      AssertsBlock(c, input, m, n);
    }
  }

  lemma AssertsBlock(c: Config, input: seq<Record>, m: nat, n: nat)
    requires m < n <= |input| && input[m..n] == VersionsOf(input, input[m].key)
    requires forall i | 0 <= i < m :: input[i].key < input[m].key
    requires forall i | m <= i < n :: input[i].key == input[m].key
    requires forall i | n <= i < |input| :: input[i].key > input[m].key
    ensures RunAsserts(c, input[m..], Fresh(Run(c, input[..m], Fresh(true)) == [])) <==>
            KeyAsserts(c, input, input[m].key)
              && RunAsserts(c, input[n..], Fresh(Run(c, input[..n], Fresh(true)) == []))
  {
    hide Run, RunAsserts, VersionsOf, KeyAsserts;
    var a, g, b := input[..m], input[m..n], input[n..];
    assert a + g == input[..n] && g + b == input[m..];
    assert input == a + (g + b) by {
      assert input == input[..m] + input[m..];
    }
    AssertsParts(c, input, a, g, b, input[m].key);
  }

  /** The versions of the key that begins at a position. */
  lemma BlockAt(input: seq<Record>, m: nat) returns (n: nat)
    requires Sorted(input) && m < |input| && (0 < m ==> input[m - 1].key < input[m].key)
    ensures m < n <= |input| && input[m..n] == VersionsOf(input, input[m].key)
    ensures forall i | 0 <= i < m :: input[i].key < input[m].key
    ensures forall i | m <= i < n :: input[i].key == input[m].key
    ensures forall i | n <= i < |input| :: input[i].key > input[m].key
  {
    hide VersionsOf;
    var k := input[m].key;
    var x, y := KeyBlock(input, k);
    forall i | 0 <= i < m - 1 ensures input[i].key < k {
      assert Before(input[i], input[m - 1]);
    }
    n := y;
    VersionsOfConcat(input[..m] + input[m..n], input[n..], k);
    VersionsOfConcat(input[..m], input[m..n], k);
    assert input == input[..m] + input[m..n] + input[n..];
    VersionsOfNone(input[..m], k);
    VersionsOfAll(input[m..n], k);
    VersionsOfNone(input[n..], k);
  }

  /** Over a whole input in which single deletes are followed by puts, the assertions hold exactly if no put at 0 is
      emptied. */
  lemma AssertionsHold(c: Config, input: seq<Record>)
    requires c.Valid() && Sorted(input) && Bounded(input) && DeletesOnePut(input)
    ensures RunAsserts(c, input, Fresh(true)) <==>
            forall i | 0 <= i < |input| ::
              !EmptiesAtZero(c, VersionsOf(input, input[i].key), EnoughFor(c, input, input[i].key))
  {
    hide Run, RunAsserts, VersionsOf, EmptiesAtZero, Silent;
    forall i | 0 <= i < |input|
      ensures KeyAsserts(c, input, input[i].key) <==>
              !EmptiesAtZero(c, VersionsOf(input, input[i].key), EnoughFor(c, input, input[i].key))
      ensures RunAsserts(c, input, Fresh(true)) ==> KeyAsserts(c, input, input[i].key)
    {
      OneKeyAsserts(c, input, input[i].key);
    }
    if forall i | 0 <= i < |input| :: KeyAsserts(c, input, input[i].key) {
      KeysAssert(c, input, 0);
      assert input[0..] == input && input[..0] == [];
      RunEmpty(c, Fresh(true));
    }
  }

  lemma OneKeyAsserts(c: Config, input: seq<Record>, k: Key)
    requires c.Valid() && Sorted(input) && Bounded(input) && DeletesOnePut(input)
    ensures KeyAsserts(c, input, k) <==> !EmptiesAtZero(c, VersionsOf(input, k), EnoughFor(c, input, k))
    ensures RunAsserts(c, input, Fresh(true)) ==> KeyAsserts(c, input, k)
  {
    hide Run, RunAsserts, VersionsOf, EmptiesAtZero, Silent, NothingBefore;
    var a, g, b := SplitAtKey(input, k);
    assert input == a + (g + b);
    AssertsParts(c, input, a, g, b, k);
    SilentIff(c, input, k);
    PartStack(c, a, g, b, k);
    HistoryAsserts(c, g, k, Silent(c, input, k));
  }

  lemma PartStack(c: Config, a: seq<Record>, g: seq<Record>, b: seq<Record>, k: Key)
    requires c.Valid() && History(g, k) && Bounded(a + (g + b)) && DeletesOnePut(a + (g + b))
    ensures Stack(c, g, [], k) && DeletesOnePut(g)
  {
    var all := a + (g + b);
    assert forall i | 0 <= i < |g| :: all[|a| + i] == g[i];
  }
}
