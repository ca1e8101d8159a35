/** A snapshot numbered 0. The loop takes 0 for "no snapshot", so a version with sequence 0 under such a snapshot can be
    taken for a record of another stripe. Here is exactly what that does to the reads of one key. */
module IteratorZero {
  import opened Records
  import opened Snapshots
  import opened IteratorSpec
  import opened IteratorGroups
  import opened IteratorGuards
  import opened IteratorMeaning

  /** The oldest version is in the stripe numbered 0, and the single delete above it, with no other snapshot between,
      takes it for one of its own stripe. */
  predicate Crossing(c: Config, g: seq<Record>) {
    && |g| > 1 && c.StripeOf(g[|g| - 1]) == 0
    && g[|g| - 2].kind.SingleDeletion? && Previous(c.snapshots, g[|g| - 2].seqno) == 0
  }

  /** That single delete drops the version, rather than keep and empty it. */
  predicate DropsPair(c: Config, g: seq<Record>, enough: nat)
    requires |g| > 1
  {
    Outputs(c, g, 2, 0, 0, enough) >= enough || g[|g| - 2].seqno <= c.writeConflict
  }

  /** A put with sequence 0 under a snapshot numbered 0 is lost if it is alone, or if a single delete drops it or
      empties a value that was not empty. */
  predicate LostAtZero(c: Config, g: seq<Record>, enough: nat) {
    && g != [] && c.StripeOf(g[|g| - 1]) == 0 && g[|g| - 1].kind.Value?
    && (|g| == 1 || (Crossing(c, g) && (g[|g| - 1].value != "" || DropsPair(c, g, enough))))
  }

  /** The versions in whose stripes the loop is not mistaken. */
  function Above(c: Config, g: seq<Record>): seq<Record> {
    if Crossing(c, g) then g[..|g| - 1] else g
  }

  /** What a caller can check beforehand: no stripe vanishes over a value, and no put at 0 is lost. */
  ghost predicate Safe(c: Config, g: seq<Record>, d: seq<Record>, enough: nat) {
    HarmlessBy(c, Above(c, g), d, 0, 0, enough) && !LostAtZero(c, g, enough)
  }

  // ---- The stripe numbered 0

  lemma AtZero(c: Config, g: seq<Record>, d: seq<Record>, k: Key, i: nat)
    requires Stack(c, g, d, k) && i < |g| && c.StripeOf(g[i]) == 0
    ensures i == |g| - 1 && g[i].seqno == 0 && d == [] && Earliest(c.snapshots) == 0 && 0 in c.snapshots
  {
    VisibleIffStripe(c.snapshots, g[i].seqno, MAX_SEQ);
    StripeIsReadPoint(c.snapshots, g[i].seqno);
    EarliestIsLeast(c.snapshots, 0);
    Descends(c, g, d, k, i);
  }

  lemma Descends(c: Config, g: seq<Record>, d: seq<Record>, k: Key, i: nat)
    requires Stack(c, g, d, k) && i < |g|
    ensures i + 1 < |g| ==> g[i + 1].seqno < g[i].seqno
    ensures d != [] ==> d[0].seqno < g[i].seqno
  {
  }

  /** Where no single delete is mistaken and the first record is not alone at 0, the guards decide. */
  lemma NotMistaken(c: Config, g: seq<Record>, d: seq<Record>, k: Key)
    requires Stack(c, g, d, k) && g != [] && !Crossing(c, g)
    ensures PeeksOk(c, g)
  {
    forall i | 0 < i < |g| && g[i - 1].kind.SingleDeletion?
      ensures c.StripeOf(g[i]) != 0 || Previous(c.snapshots, g[i - 1].seqno) != 0
    {
      if c.StripeOf(g[i]) == 0 {
        AtZero(c, g, d, k, i);
      }
    }
  }

  ghost predicate Kept(c: Config, g: seq<Record>, d: seq<Record>, k: Key, st: State) {
    forall s | ReadPoint(c.snapshots, s) :: Read(Run(c, g, st), d, k, s) == Read(g, d, k, s)
  }

  lemma KeptIffHarmless(c: Config, g: seq<Record>, d: seq<Record>, k: Key, first: bool)
    requires Stack(c, g, d, k) && PeeksOk(c, g) && (g != [] ==> c.StripeOf(g[0]) != 0)
    ensures Kept(c, g, d, k, Fresh(first)) <==> HarmlessBy(c, g, d, 0, 0, Enough(first))
  {
    hide Run, Read, Harmless, HarmlessBy, Stack, PeeksOk;
    var st := Fresh(first);
    assert AtStripe(c, g, k, st);
    HarmlessIff(c, g, d, k, st, 0, 0, Enough(first));
    if Harmless(c, g, d, st) {
      forall s | ReadPoint(c.snapshots, s) ensures Read(Run(c, g, st), d, k, s) == Read(g, d, k, s) {
        HarmlessReads(c, g, d, k, st, s);
      }
    } else {
      var s := HarmShows(c, g, d, k, st);
    }
  }

  /** A record alone in the stripe numbered 0: a put is dropped. */
  lemma AloneAtZero(c: Config, g: seq<Record>, d: seq<Record>, k: Key, first: bool)
    requires Stack(c, g, d, k) && g != [] && c.StripeOf(g[0]) == 0
    ensures |g| == 1 && HarmlessBy(c, g, d, 0, 0, Enough(first))
    ensures Kept(c, g, d, k, Fresh(first)) <==> !g[0].kind.Value?
  {
    AtZero(c, g, d, k, 0);
    var st := Fresh(first);
    RunOnce(c, g, st);
    assert g[1..] == [];
    var t := Step(c, g, st);
    RunEmpty(c, t.state);
    var out := Run(c, g, st);
    assert out == [] || (out == [c.Prepare(g[0])] && !g[0].kind.Value?);
    assert StripeLength(c, g, 0) == 1;
    forall s | ReadPoint(c.snapshots, s)
      ensures Read(out, d, k, s) == NotFound && Read(g, d, k, s) == Seen(g[0])
    {
      ReadHead(g[0], [], d, k, s);
      assert g == [g[0]] + [];
    }
    assert ReadPoint(c.snapshots, MAX_SEQ);
  }

  // ---- A single delete that is mistaken

  /** The state with which the run comes to where at most `left` records are left. */
  function StateAt(c: Config, g: seq<Record>, st: State, left: nat): State
    decreases |g|
  {
    if |g| <= left then st
    else var t := Step(c, g, st); StateAt(c, g[t.used..], t.state, left)
  }

  lemma StateOnce(c: Config, g: seq<Record>, st: State, left: nat)
    ensures |g| <= left ==> StateAt(c, g, st, left) == st
    ensures |g| > left ==>
              1 <= Step(c, g, st).used <= |g|
              && StateAt(c, g, st, left) == StateAt(c, g[Step(c, g, st).used..], Step(c, g, st).state, left)
  {
  }

  /** Up to the last single delete the run does not see what lies below it. */
  lemma {:induction false} RunToDelete(c: Config, h: seq<Record>, r: Record, z: Record, st: State, k: Key, last: nat,
          n: nat, enough: nat)
    returns (out: seq<Record>, next: State)
    requires AllOf(h + [r, z], k) && r.kind.SingleDeletion? && Counts(st, k, n, enough) && last == Last(st, k)
    ensures Run(c, h + [r, z], st) == out + Run(c, [r, z], next)
    ensures Run(c, h + [r], st) == out + Run(c, [r], next)
    ensures Counts(next, k, Outputs(c, h + [r, z], 2, last, n, enough), enough)
    ensures next == StateAt(c, h + [r, z], st, 2)
    decreases |h|
  {
    hide Run, Step, Counts, Outputs, AllOf, StateAt;
    var g, g' := h + [r, z], h + [r];
    StateOnce(c, g, st, 2);
    if h == [] {
      assert g == [r, z] && g' == [r];
      out, next := [], st;
      OutputsNone(c, g, 2, last, n, enough);
    } else {
      StepsAlike(c, h, r, z, st);
      RunOnce(c, g, st);
      RunOnce(c, g', st);
      var t := Step(c, g, st);
      if t.state.clear {
        TurnsCount(c, g, st, k, 2, n, enough);
        assert g[1] != r;
        StepsAlike(c, h[1..], r, z, t.state);
        RunOnce(c, g[1..], t.state);
        RunOnce(c, g'[1..], t.state);
        StateOnce(c, g[1..], t.state, 2);
        var u := Step(c, g[1..], t.state);
        assert g[1..][1..] == h[2..] + [r, z] && g[2..] == h[2..] + [r, z] && g'[1..][1..] == h[2..] + [r];
        AllOfRest(g, k, 2);
        var rest;
        rest, next := RunToDelete(c, h[2..], r, z, u.state, k, Last(u.state, k), n + 2, enough);
        out := [t.out.value] + ([u.out.value] + rest);
      } else {
        TurnCounts(c, g, st, k, 2, n, enough);
        assert t.used <= |h|;
        assert g[t.used..] == h[t.used..] + [r, z] && g'[t.used..] == h[t.used..] + [r];
        AllOfRest(g, k, t.used);
        var o, rest := if t.out.Some? then [t.out.value] else [], [];
        rest, next := RunToDelete(c, h[t.used..], r, z, t.state, k, c.StripeOf(g[0]), n + |o|, enough);
        out := o + rest;
      }
    }
  }

  lemma AllOfRest(g: seq<Record>, k: Key, n: nat)
    requires AllOf(g, k) && n <= |g|
    ensures AllOf(g[n..], k)
  {
  }

  lemma StepsAlike(c: Config, h: seq<Record>, r: Record, z: Record, st: State)
    requires h != []
    ensures Step(c, h + [r, z], st) == Step(c, h + [r], st)
    ensures Step(c, h + [r, z], st).used == 2 && r.kind.SingleDeletion? ==> |h| > 1
    ensures (h + [r, z])[0] == h[0] && (h + [r, z])[1..] == h[1..] + [r, z] && (h + [r])[1..] == h[1..] + [r]
  {
    var g, g' := h + [r, z], h + [r];
    assert g[0] == g'[0] && g[1] == g'[1];
  }

  /** What becomes of the last single delete, with and without the version below. */
  lemma TailRun(c: Config, r: Record, z: Record, st: State, k: Key, n: nat, enough: nat)
    requires r.key == k == z.key && r.kind.SingleDeletion? && Counts(st, k, n, enough)
    requires Peeked(c, r, z) && !c.BottomTombstone(r)
    ensures Run(c, [r], st) == [c.Prepare(r)]
    ensures Run(c, [r, z], st) ==
            if z.kind.SingleDeletion? then (if c.BottomTombstone(z) then [] else [c.Prepare(z)])
            else if n >= enough || r.seqno <= c.writeConflict then []
            else [c.Prepare(r)] + [c.Prepare(z.(value := ""))]
  {
    hide Run, Config.Prepare;
    var g := [r, z];
    var t := Step(c, g, st);
    RunOnce(c, [r], st);
    assert [r][1..] == [];
    RunEmpty(c, Step(c, [r], st).state);
    RunOnce(c, g, st);
    RunEmpty(c, t.state);
    assert g[1..] == [z] && g[2..] == [] && [z][1..] == [];
    RunOnce(c, [z], t.state);
    RunEmpty(c, Step(c, [z], t.state).state);
  }

  lemma {:induction false} ReadJoin(o: seq<Record>, a: seq<Record>, b: seq<Record>, k: Key, s: nat)
    requires Read(a, [], k, s) == Read(b, [], k, s)
    ensures Read(o + a, [], k, s) == Read(o + b, [], k, s)
    decreases |o|
  {
    if o == [] {
      assert o + a == a && o + b == b;
    } else {
      assert (o + a)[1..] == o[1..] + a && (o + b)[1..] == o[1..] + b;
      ReadJoin(o[1..], a, b, k, s);
    }
  }

  /** A read point sees only the version at 0, or everything from the last single delete down. */
  lemma ReadPointsApart(c: Config, r: Record, s: nat)
    requires c.Valid() && ReadPoint(c.snapshots, s) && Previous(c.snapshots, r.seqno) == 0 && r.seqno <= MAX_SEQ
    ensures s == 0 || r.seqno <= s
  {
    PreviousInside(c.snapshots, r.seqno);
  }

  lemma CrossedFacts(c: Config, g: seq<Record>, d: seq<Record>, k: Key)
    requires Stack(c, g, d, k) && Crossing(c, g)
    ensures var h, r, z := g[..|g| - 2], g[|g| - 2], g[|g| - 1];
            && g == h + [r, z] && g[..|g| - 1] == h + [r] && d == []
            && AllOf(g, k) && Peeked(c, r, z) && !c.BottomTombstone(r) && c.Prepare(r) == r && z.seqno == 0
            && c.Prepare(z) == z && c.Prepare(z.(value := "")) == z.(value := "")
    ensures Stack(c, g[..|g| - 1], d, k) && PeeksOk(c, g[..|g| - 1]) && c.StripeOf(g[0]) != 0
    ensures forall i | 0 <= i < |g| - 1 :: g[i].seqno > Earliest(c.snapshots) == 0
  {
    AtZero(c, g, d, k, |g| - 1);
    var g' := g[..|g| - 1];
    forall i | 0 <= i < |g'| ensures c.StripeOf(g'[i]) != 0 {
      VisibleIffStripe(c.snapshots, g'[i].seqno, MAX_SEQ);
    }
    NotMistaken(c, g', d, k);
  }

  /** Nothing that is output for a version above the earliest snapshot is visible at it. */
  lemma NotAtEarliest(c: Config, g: seq<Record>, k: Key, st: State, out: seq<Record>, tail: seq<Record>)
    requires AllOf(g, k) && ClearPending(g, st) && Run(c, g, st) == out + tail
    requires forall i | 0 <= i < |g| :: g[i].seqno > Earliest(c.snapshots)
    ensures forall o | o in out :: !(o.seqno <= Earliest(c.snapshots))
  {
    hide Run;
    forall o | o in out ensures !(o.seqno <= Earliest(c.snapshots)) {
      var x :| 0 <= x < |out| && out[x] == o;
      assert Run(c, g, st)[x] == o;
      var i := OutputFromInput(c, g, st, x);
    }
  }

  lemma TailAtZero(r: Record, z: Record, k: Key)
    requires r.key == k == z.key && r.seqno > 0 == z.seqno
    ensures Read([r], [], k, 0) == NotFound && Read([z], [], k, 0) == Seen(z)
    ensures Read([r] + [z.(value := "")], [], k, 0) == Seen(z.(value := ""))
  {
    var e := z.(value := "");
    assert [r] + [] == [r] && [z] + [] == [z] && [e] + [] == [e];
    ReadHead(r, [], [], k, 0);
    ReadHead(z, [], [], k, 0);
    ReadHead(e, [], [], k, 0);
    ReadHead(r, [e], [], k, 0);
  }

  /** The reads at 0 and the others. */
  lemma CrossedReads(c: Config, g: seq<Record>, d: seq<Record>, k: Key, st: State, out: seq<Record>, tail: seq<Record>,
          s: nat)
    requires Stack(c, g, d, k) && Crossing(c, g) && ReadPoint(c.snapshots, s) && !st.clear
    requires Run(c, g, st) == out + tail && Run(c, g[..|g| - 1], st) == out + [g[|g| - 2]]
    requires tail == [] || (tail == [g[|g| - 1]] && g[|g| - 1].kind.SingleDeletion?)
             || tail == [g[|g| - 2]] + [g[|g| - 1].(value := "")]
    ensures var g' := g[..|g| - 1];
            && (s == 0 ==> Read(Run(c, g', st), d, k, 0) == Read(g', d, k, 0))
            && (s == 0 ==> Read(g, d, k, 0) == Seen(g[|g| - 1]) && Read(Run(c, g, st), d, k, 0) == Read(tail, d, k, 0))
            && (s != 0 ==> Read(Run(c, g, st), d, k, s) == Read(Run(c, g', st), d, k, s))
            && (s != 0 ==> Read(g, d, k, s) == Read(g', d, k, s))
  {
    hide Run, Stack;
    CrossedFacts(c, g, d, k);
    hide Crossing, PeeksOk, Config.Prepare, Config.BottomTombstone;
    var h, r, z := g[..|g| - 2], g[|g| - 2], g[|g| - 1];
    var g' := g[..|g| - 1];
    if s == 0 {
      NotAtEarliest(c, g', k, st, out, [r]);
      ReadPast(out, tail, d, k, 0);
      ReadPast(out, [r], d, k, 0);
      ReadPast(g', [z], d, k, 0);
      ReadPast(g', [], d, k, 0);
      assert g' + [z] == g && g' + [] == g';
      TailAtZero(r, z, k);
    } else {
      assert r.seqno <= s by {
        PeekedNext(c, g, d, k, s);
      }
      ReadJoin(out, tail, [r], k, s);
      ReadJoin(h, [r, z], [r], k, s);
    }
  }

  lemma PeekedNext(c: Config, g: seq<Record>, d: seq<Record>, k: Key, s: nat)
    requires Stack(c, g, d, k) && Crossing(c, g) && ReadPoint(c.snapshots, s) && s != 0
    ensures g[|g| - 2].seqno <= s
  {
    ReadPointsApart(c, g[|g| - 2], s);
  }

  /** With a mistaken single delete, the versions above read as if nothing were below, and the put at 0 is kept only if
      it was empty and is kept. */
  lemma CrossedKept(c: Config, g: seq<Record>, d: seq<Record>, k: Key, first: bool)
    requires Stack(c, g, d, k) && Crossing(c, g)
    ensures Kept(c, g, d, k, Fresh(first)) <==> Safe(c, g, d, Enough(first))
  {
    hide Run, Stack, HarmlessBy, Outputs;
    CrossedFacts(c, g, d, k);
    var h, r, z := g[..|g| - 2], g[|g| - 2], g[|g| - 1];
    var g', st, enough := g[..|g| - 1], Fresh(first), Enough(first);
    var out, next := RunToDelete(c, h, r, z, st, k, 0, 0, enough);
    TailRun(c, r, z, next, k, Outputs(c, g, 2, 0, 0, enough), enough);
    var tail := Run(c, [r, z], next);
    KeptIffHarmless(c, g', d, k, first);
    AtZero(c, g, d, k, |g| - 1);
    TailAtZero(r, z, k);
    assert Read(tail, d, k, 0) == Seen(z) <==> !LostAtZero(c, g, enough);
    CrossedTogether(c, g, d, k, st, out, tail);
  }

  lemma CrossedTogether(c: Config, g: seq<Record>, d: seq<Record>, k: Key, st: State, out: seq<Record>,
          tail: seq<Record>)
    requires Stack(c, g, d, k) && Crossing(c, g) && !st.clear
    requires Run(c, g, st) == out + tail && Run(c, g[..|g| - 1], st) == out + [g[|g| - 2]]
    requires tail == [] || (tail == [g[|g| - 1]] && g[|g| - 1].kind.SingleDeletion?)
             || tail == [g[|g| - 2]] + [g[|g| - 1].(value := "")]
    ensures Kept(c, g, d, k, st) <==> Kept(c, g[..|g| - 1], d, k, st) && Read(tail, d, k, 0) == Seen(g[|g| - 1])
  {
    hide Run, Stack, Read;
    var g' := g[..|g| - 1];
    AtZero(c, g, d, k, |g| - 1);
    CrossedReads(c, g, d, k, st, out, tail, 0);
    if Kept(c, g, d, k, st) {
      forall s | ReadPoint(c.snapshots, s) ensures Read(Run(c, g', st), d, k, s) == Read(g', d, k, s) {
        CrossedReads(c, g, d, k, st, out, tail, s);
      }
    } else if Kept(c, g', d, k, st) {
      var s :| ReadPoint(c.snapshots, s) && Read(Run(c, g, st), d, k, s) != Read(g, d, k, s);
      CrossedReads(c, g, d, k, st, out, tail, s);
    }
  }

  /** Exactly when the run over a key keeps all reads. */
  lemma KeptExactly(c: Config, g: seq<Record>, d: seq<Record>, k: Key, first: bool)
    requires Stack(c, g, d, k)
    ensures Kept(c, g, d, k, Fresh(first)) <==> Safe(c, g, d, Enough(first))
  {
    hide Kept, HarmlessBy, Stack;
    if Crossing(c, g) {
      CrossedKept(c, g, d, k, first);
    } else if g != [] && c.StripeOf(g[0]) == 0 {
      AloneAtZero(c, g, d, k, first);
    } else {
      if g != [] {
        NotMistaken(c, g, d, k);
      }
      KeptIffHarmless(c, g, d, k, first);
    }
  }
}
