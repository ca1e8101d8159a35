/** The documented use of single deletes survives a compaction: where puts and single deletes take turns they still do
    so in its output, over the same deeper versions. */
module IteratorUse {
  import opened Records
  import opened Snapshots
  import opened IteratorSpec
  import opened IteratorGroups
  import opened IteratorGuards
  import opened IteratorMeaning
  import opened IteratorZero
  import opened IteratorTheorems

  /** No version has stripe 0. */
  ghost predicate NoneAtZero(c: Config, g: seq<Record>) {
    forall i | 0 <= i < |g| :: c.StripeOf(g[i]) != 0
  }

  /** The newest version, if any is left, is of the same kind. */
  predicate SameHead(a: seq<Record>, b: seq<Record>) {
    a != [] ==> b != [] && a[0].kind == b[0].kind
  }

  /** The loop takes a put only under a single delete, or as the first of its stripe. */
  ghost predicate TakesTurns(c: Config, g: seq<Record>, st: State, k: Key) {
    && (st.clear ==> g != [] && g[0].kind.Value?)
    && (g != [] && g[0].kind.Value? && !st.clear ==> Last(st, k) != c.StripeOf(g[0]))
  }

  /** One turn: what is output, if anything, is of the kind of the record read, and else two records go or the last. */
  lemma TurnAlternates(c: Config, g: seq<Record>, d: seq<Record>, k: Key, st: State)
    requires Stack(c, g, d, k) && g != [] && Alternating(g + d) && NoneAtZero(c, g) && TakesTurns(c, g, st, k)
    ensures var t := Step(c, g, st);
            && 1 <= t.used <= |g| && TakesTurns(c, g[t.used..], t.state, k)
            && (t.out.Some? ==> t.used == 1 && t.out.value.kind == g[0].kind)
            && (t.out.None? ==> g[0].kind.SingleDeletion? && (t.used == 2 || (|g| == 1 && d == [])))
  {
    assert (g + d)[0] == g[0];
    if |g| > 1 {
      assert (g + d)[1] == g[1] && (g + d)[0].kind != (g + d)[1].kind;
      if Previous(c.snapshots, g[0].seqno) != 0 {
        SameStripeIffAbovePrevious(c.snapshots, g[1].seqno, g[0].seqno);
      }
    }
    if |g| > 2 {
      assert (g + d)[2] == g[2] && (g + d)[1].kind != (g + d)[2].kind;
    }
  }

  lemma Grow(r: Record, tail: seq<Record>, p: Record, rest: seq<Record>)
    requires Alternating(tail) && SameHead(tail, rest) && Alternating([p] + rest) && r.kind == p.kind
    ensures Alternating([r] + tail)
  {
    if tail != [] {
      assert ([p] + rest)[0].kind != ([p] + rest)[1].kind;
    }
    var all := [r] + tail;
    forall i | 0 <= i < |all| ensures !all[i].kind.Deletion? {
      assert !([p] + rest)[0].kind.Deletion?;
    }
    forall i | 0 <= i < |all| - 1 ensures all[i].kind != all[i + 1].kind {
      assert all[i + 1] == tail[i] && (i > 0 ==> all[i] == tail[i - 1]);
    }
  }

  lemma StackTail(c: Config, g: seq<Record>, d: seq<Record>, k: Key, n: nat)
    requires Stack(c, g, d, k) && NoneAtZero(c, g) && n <= |g|
    ensures Stack(c, g[n..], d, k) && NoneAtZero(c, g[n..])
  {
  }

  /** Turn by turn, puts and single deletes still take turns, and the newest kind does not change. */
  lemma {:induction false} RunAlternates(c: Config, g: seq<Record>, d: seq<Record>, k: Key, st: State)
    requires Stack(c, g, d, k) && Alternating(g + d) && NoneAtZero(c, g) && TakesTurns(c, g, st, k)
    ensures Alternating(Run(c, g, st) + d) && SameHead(Run(c, g, st) + d, g + d)
    decreases |g|
  {
    hide Stack, NoneAtZero, Step, TakesTurns, Alternating;
    if g == [] {
      assert Run(c, g, st) + d == g + d;
    } else {
      var t := Step(c, g, st);
      RunOnce(c, g, st);
      TurnAlternates(c, g, d, k, st);
      StackTail(c, g, d, k, t.used);
      AlternatingTail(g, d, t.used);
      RunAlternates(c, g[t.used..], d, k, t.state);
      var rest := Run(c, g[t.used..], t.state);
      hide Run;
      if t.out.Some? {
        assert g + d == [g[0]] + (g[1..] + d);
        assert Run(c, g, st) + d == [t.out.value] + (rest + d);
        Grow(t.out.value, rest + d, g[0], g[1..] + d);
      } else {
        assert Run(c, g, st) == rest;
        SecondKind(g, d);
      }
    }
  }

  lemma SecondKind(g: seq<Record>, d: seq<Record>)
    requires Alternating(g + d) && g != [] && g[0].kind.SingleDeletion?
    ensures |g| >= 2 && g[2..] + d != [] ==> (g[2..] + d)[0].kind == g[0].kind
  {
    if |g| >= 2 && g[2..] + d != [] {
      var all := g + d;
      assert g[2..] + d == all[2..];
      assert all[0].kind != all[1].kind && all[1].kind != all[2].kind;
    }
  }

  /** A snapshot numbered 0 was taken before the first write, so while the iterator has to keep it no sequence number
      is 0. */
  ghost predicate ZeroUnused(c: Config, g: seq<Record>) {
    0 in c.snapshots ==> forall r | r in g :: r.seqno > 0
  }

  lemma UnusedNone(c: Config, g: seq<Record>)
    requires c.Valid() && Bounded(g) && ZeroUnused(c, g)
    ensures NoneAtZero(c, g)
  {
    forall i | 0 <= i < |g| ensures c.StripeOf(g[i]) != 0 {
      assert g[i] in g;
      VisibleIffStripe(c.snapshots, g[i].seqno, MAX_SEQ);
      StripeIsReadPoint(c.snapshots, g[i].seqno);
    }
  }

  /** Puts and single deletes still take turns after a compaction. */
  lemma CompactionAlternates(c: Config, input: seq<Record>, deeper: seq<Record>, k: Key)
    requires Placed(c, input, deeper, k) && ZeroUnused(c, VersionsOf(input, k))
    requires Alternating(VersionsOf(input, k) + VersionsOf(deeper, k))
    ensures Alternating(VersionsOf(Compact(c, input), k) + VersionsOf(deeper, k))
    ensures SameHead(VersionsOf(Compact(c, input), k) + VersionsOf(deeper, k),
                     VersionsOf(input, k) + VersionsOf(deeper, k))
  {
    hide VersionsOf, Compact, Run, Alternating, SameHead;
    var g, d := VersionsOf(input, k), VersionsOf(deeper, k);
    var first := KeyRun(c, input, k);
    if g == [] {
      RunEmpty(c, Fresh(first));
      assert g + d == d;
      HeadItself(d);
    } else {
      PlacedStack(c, input, deeper, k);
      UnusedNone(c, g);
      RunAlternates(c, g, d, k, Fresh(first));
    }
  }

  lemma HeadItself(d: seq<Record>)
    ensures SameHead(d, d)
  {
  }

  /** Used as documented, and with no sequence number 0 under a snapshot numbered 0, a key is safe. */
  lemma UsedSafe(c: Config, input: seq<Record>, deeper: seq<Record>, k: Key)
    requires Placed(c, input, deeper, k) && ZeroUnused(c, VersionsOf(input, k)) && WellUsed(input, deeper, k)
    ensures Safe(c, VersionsOf(input, k), VersionsOf(deeper, k), EnoughFor(c, input, k))
  {
    hide VersionsOf, Safe, Placed, WellUsed, EnoughFor, ReadsKept;
    var g := VersionsOf(input, k);
    CompactionPreservesReads(c, input, deeper, k);
    ReadsKeptExactly(c, input, deeper, k);
    if g != [] {
      PlacedStack(c, input, deeper, k);
      UnusedNone(c, g);
    }
  }
}
