/** Compaction preserves meaning: a read at any live snapshot or at the tip gets the same answer
    from the output over the deeper levels as from the input over the deeper levels. */
module IteratorMeaning {
  import opened Records
  import opened Snapshots
  import opened IteratorSpec
  import opened IteratorGroups
  import opened IteratorGuards

  ghost predicate Bounded(g: seq<Record>) {
    forall i | 0 <= i < |g| :: g[i].seqno <= MAX_SEQ
  }

  /** Every record of `d` is older than every record of `g`. */
  ghost predicate Older(d: seq<Record>, g: seq<Record>) {
    forall i, j | 0 <= i < |d| && 0 <= j < |g| :: d[i].seqno < g[j].seqno
  }

  /** A history of puts and deletions only. */
  predicate NoSingleDelete(g: seq<Record>) {
    forall i | 0 <= i < |g| :: !g[i].kind.SingleDeletion?
  }

  /** The documented use of single deletes: puts and single deletes take turns. */
  predicate Alternating(g: seq<Record>) {
    && (forall i | 0 <= i < |g| :: !g[i].kind.Deletion?)
    && (forall i | 0 <= i < |g| - 1 :: g[i].kind != g[i + 1].kind)
  }

  /** One key's share of a compaction: its input history over its deeper history. */
  ghost predicate Stack(c: Config, g: seq<Record>, d: seq<Record>, k: Key) {
    && c.Valid()
    && History(g, k) && Bounded(g)
    && History(d, k) && Older(d, g)
    && (c.compaction.Some? && c.compaction.value.AbsentBeyond(k) ==> d == [])
  }

  lemma StackTail(c: Config, g: seq<Record>, d: seq<Record>, k: Key, n: nat)
    requires Stack(c, g, d, k) && n <= |g|
    ensures Stack(c, g[n..], d, k)
  {
  }

  /** How a read point sees a record and its prepared form. */
  lemma SeesPrepared(c: Config, r: Record, s: nat)
    requires c.Valid() && r.seqno <= MAX_SEQ && ReadPoint(c.snapshots, s)
    ensures r.seqno <= s <==> c.StripeOf(r) <= s
    ensures r.seqno <= s ==> c.Prepare(r).seqno <= s
    ensures !(r.seqno <= s) ==> c.Prepare(r) == r
  {
    VisibleIffStripe(c.snapshots, r.seqno, s);
    if c.Zeroes(r) {
      FirstStripe(c.snapshots, r.seqno);
      EarliestIsLeast(c.snapshots, s);
    }
  }

  lemma EarliestIsLeast(snaps: seq<nat>, s: nat)
    requires Ascending(snaps) && ReadPoint(snaps, s)
    ensures Earliest(snaps) <= s
  {
  }

  lemma ReadHead(r: Record, rest: seq<Record>, d: seq<Record>, k: Key, s: nat)
    requires r.key == k
    ensures r.seqno <= s ==> Read([r] + rest, d, k, s) == Seen(r)
    ensures !(r.seqno <= s) ==> Read([r] + rest, d, k, s) == Read(rest, d, k, s)
  {
    assert ([r] + rest)[1..] == rest;
  }

  // ---- One stripe after another

  /** The turns over the records of one stripe: what they output, the records left, and the state. */
  datatype Walked = Walked(out: seq<Record>, rest: seq<Record>, state: State)

  function Walk(c: Config, g: seq<Record>, st: State, stripe: nat): Walked
    decreases |g|
  {
    if g == [] || c.StripeOf(g[0]) != stripe then Walked([], g, st)
    else
      var t := Step(c, g, st);
      var w := Walk(c, g[t.used..], t.state, stripe);
      w.(out := (if t.out.Some? then [t.out.value] else []) + w.out)
  }

  lemma {:induction false} RunWalk(c: Config, g: seq<Record>, st: State, stripe: nat)
    ensures var w := Walk(c, g, st, stripe); Run(c, g, st) == w.out + Run(c, w.rest, w.state)
    decreases |g|
  {
    hide Run, Step;
    if g != [] && c.StripeOf(g[0]) == stripe {
      var t := Step(c, g, st);
      RunOnce(c, g, st);
      StepUsed(c, g, st);
      RunWalk(c, g[t.used..], t.state, stripe);
      var w := Walk(c, g[t.used..], t.state, stripe);
      JoinOutput(t.out, w.out, Run(c, w.rest, w.state));
    }
  }

  lemma StepUsed(c: Config, g: seq<Record>, st: State)
    requires g != []
    ensures 1 <= Step(c, g, st).used <= |g|
  {
  }

  /** No single delete takes a version in the stripe numbered 0 for one of its own stripe. */
  ghost predicate PeeksOk(c: Config, g: seq<Record>) {
    forall i | 0 < i < |g| && g[i - 1].kind.SingleDeletion? ::
      c.StripeOf(g[i]) != 0 || Previous(c.snapshots, g[i - 1].seqno) != 0
  }

  /** The state fits the next record while the records of `stripe` are walked. Its first record is a put or deletion
      that has been dealt with, or everything so far were single deletes and what they take along. */
  predicate InStripe(c: Config, g: seq<Record>, k: Key, st: State, stripe: nat) {
    if g != [] && c.StripeOf(g[0]) == stripe then
      if st.clear then st.hasKey && st.key == k else g[0].kind.SingleDeletion? || Last(st, k) == stripe
    else
      !st.clear && (g != [] ==> Last(st, k) == stripe)
  }

  /** The record is of this stripe: a read point sees it exactly if it is not below the stripe. */
  ghost predicate OfStripe(c: Config, o: Record, k: Key, stripe: nat) {
    o.key == k && forall s | ReadPoint(c.snapshots, s) :: o.seqno <= s <==> stripe <= s
  }

  lemma PreparedOfStripe(c: Config, r: Record, k: Key, o: Record)
    requires c.Valid() && r.key == k && r.seqno <= MAX_SEQ && (o == c.Prepare(r) || o == c.Prepare(r.(value := "")))
    ensures OfStripe(c, o, k, c.StripeOf(r))
  {
    forall s | ReadPoint(c.snapshots, s) ensures o.seqno <= s <==> c.StripeOf(r) <= s {
      SeesPrepared(c, r, s);
      SeesPrepared(c, r.(value := ""), s);
    }
  }

  /** One turn inside a stripe. What it outputs first is a single delete. */
  lemma TurnInStripe(c: Config, g: seq<Record>, d: seq<Record>, k: Key, st: State, stripe: nat)
    requires Stack(c, g, d, k) && PeeksOk(c, g) && g != [] && c.StripeOf(g[0]) == stripe
    requires InStripe(c, g, k, st, stripe)
    ensures var t := Step(c, g, st);
            && 1 <= t.used <= |g| && InStripe(c, g[t.used..], k, t.state, stripe)
            && (forall i | 0 <= i < t.used :: c.StripeOf(g[i]) == stripe)
            && (t.out.Some? ==> OfStripe(c, t.out.value, k, stripe) && (!st.clear ==> t.out.value.kind.SingleDeletion?))
            && (t.out.None? ==> !st.clear && !t.state.clear)
  {
    var t := Step(c, g, st);
    if t.out.Some? {
      PreparedOfStripe(c, g[0], k, t.out.value);
    }
    if |g| > 1 && g[0].kind.SingleDeletion? {
      SameStripeIffAbovePrevious(c.snapshots, g[1].seqno, g[0].seqno);
    }
    hide Config.Prepare, OfStripe;
  }

  lemma StackRest(c: Config, g: seq<Record>, d: seq<Record>, k: Key, n: nat)
    requires Stack(c, g, d, k) && PeeksOk(c, g) && n <= |g|
    ensures Stack(c, g[n..], d, k) && PeeksOk(c, g[n..])
  {
  }

  /** Walking a stripe ends at the next one; what it outputs first, unless a record was kept back, is a single
      delete. */
  lemma {:induction false} WalkInStripe(c: Config, g: seq<Record>, d: seq<Record>, k: Key, st: State, stripe: nat)
    requires Stack(c, g, d, k) && PeeksOk(c, g) && InStripe(c, g, k, st, stripe)
    ensures var w := Walk(c, g, st, stripe);
            && |w.rest| <= |g| && w.rest == g[|g| - |w.rest|..]
            && (w.rest != [] ==> c.StripeOf(w.rest[0]) != stripe == Last(w.state, k)) && !w.state.clear
            && (forall i | 0 <= i < |g| - |w.rest| :: c.StripeOf(g[i]) == stripe)
            && (forall o | o in w.out :: OfStripe(c, o, k, stripe))
            && (w.out != [] && !st.clear ==> w.out[0].kind.SingleDeletion?)
    decreases |g|
  {
    hide Step, OfStripe, Stack, PeeksOk;
    if g != [] && c.StripeOf(g[0]) == stripe {
      TurnInStripe(c, g, d, k, st, stripe);
      var t := Step(c, g, st);
      StackRest(c, g, d, k, t.used);
      WalkInStripe(c, g[t.used..], d, k, t.state, stripe);
      var n := |g| - |Walk(c, g, st, stripe).rest|;
      forall i | 0 <= i < n ensures c.StripeOf(g[i]) == stripe {
        assert i >= t.used ==> g[i] == g[t.used..][i - t.used];
      }
    }
  }

  /** A new stripe begins, so the first record is treated on its own. */
  ghost predicate AtStripe(c: Config, g: seq<Record>, k: Key, st: State) {
    !st.clear && (g != [] ==> Last(st, k) != c.StripeOf(g[0]))
  }

  /** The newest stripe disappears, and its newest record is a single delete. */
  ghost predicate Annihilated(c: Config, g: seq<Record>, st: State)
    requires g != []
  {
    g[0].kind.SingleDeletion? && Walk(c, g, st, c.StripeOf(g[0])).out == []
  }

  /** What the walk of a whole stripe does. A read that sees the stripe sees its newest record; so does a read of the
      output, unless the stripe is annihilated, or it was a tombstone with nothing beneath. */
  lemma WalkStripe(c: Config, g: seq<Record>, d: seq<Record>, k: Key, st: State)
    requires Stack(c, g, d, k) && PeeksOk(c, g) && g != [] && AtStripe(c, g, k, st)
    ensures var stripe := c.StripeOf(g[0]);
            var w := Walk(c, g, st, stripe);
            && |w.rest| < |g| && w.rest == g[|g| - |w.rest|..] && AtStripe(c, w.rest, k, w.state)
            && (w.rest != [] ==> c.StripeOf(w.rest[0]) != stripe)
            && (forall i | 0 <= i < |g| - |w.rest| :: c.StripeOf(g[i]) == stripe)
            && (forall o | o in w.out :: OfStripe(c, o, k, stripe))
            && (w.out != [] ==> Seen(w.out[0]) == Seen(g[0]))
            && (w.out == [] && !Annihilated(c, g, st) ==> w.rest == [] && d == [] && Seen(g[0]) == NotFound)
  {
    hide Walk, OfStripe, Stack, PeeksOk, Config.Prepare, Step;
    if g[0].kind.SingleDeletion? {
      WalkInStripe(c, g, d, k, st, c.StripeOf(g[0]));
      WalkShrinks(c, g, st);
    } else {
      WalkPlain(c, g, d, k, st);
    }
  }

  lemma WalkShrinks(c: Config, g: seq<Record>, st: State)
    requires g != []
    ensures |Walk(c, g, st, c.StripeOf(g[0])).rest| < |g|
  {
    hide Step;
    StepUsed(c, g, st);
    RestShrinks(c, g[Step(c, g, st).used..], Step(c, g, st).state, c.StripeOf(g[0]));
  }

  /** A stripe that begins with a put or a deletion. */
  lemma WalkPlain(c: Config, g: seq<Record>, d: seq<Record>, k: Key, st: State)
    requires Stack(c, g, d, k) && PeeksOk(c, g) && g != [] && !g[0].kind.SingleDeletion? && AtStripe(c, g, k, st)
    ensures var stripe := c.StripeOf(g[0]);
            var w := Walk(c, g, st, stripe);
            && |w.rest| < |g| && w.rest == g[|g| - |w.rest|..] && AtStripe(c, w.rest, k, w.state)
            && (w.rest != [] ==> c.StripeOf(w.rest[0]) != stripe)
            && (forall i | 0 <= i < |g| - |w.rest| :: c.StripeOf(g[i]) == stripe)
            && (forall o | o in w.out :: OfStripe(c, o, k, stripe))
            && (w.out != [] ==> Seen(w.out[0]) == Seen(g[0]))
            && (w.out == [] ==> w.rest == [] && d == [] && Seen(g[0]) == NotFound)
  {
    hide Walk, OfStripe, Stack, PeeksOk, Config.Prepare, Step, Config.BottomTombstone;
    var stripe := c.StripeOf(g[0]);
    PlainHead(c, g, d, k, st);
    var t := Step(c, g, st);
    WalkOnce(c, g, st);
    StackRest(c, g, d, k, 1);
    WalkInStripe(c, g[1..], d, k, t.state, stripe);
    var n := |g[1..]| - |Walk(c, g[1..], t.state, stripe).rest|;
    assert forall i | 1 <= i <= n :: g[i] == g[1..][i - 1];
    if t.out.None? {
      AllInFirstStripe(c, g, d, k);
      RestInStripe(c, g[1..], t.state, stripe);
    }
  }

  lemma WalkOnce(c: Config, g: seq<Record>, st: State)
    requires g != [] && Step(c, g, st).used == 1
    ensures var t := Step(c, g, st);
            var w := Walk(c, g[1..], t.state, c.StripeOf(g[0]));
            Walk(c, g, st, c.StripeOf(g[0])) == w.(out := (if t.out.Some? then [t.out.value] else []) + w.out)
  {
  }

  lemma {:induction false} RestShrinks(c: Config, g: seq<Record>, st: State, stripe: nat)
    ensures |Walk(c, g, st, stripe).rest| <= |g|
    decreases |g|
  {
    hide Step;
    if g != [] && c.StripeOf(g[0]) == stripe {
      StepUsed(c, g, st);
      RestShrinks(c, g[Step(c, g, st).used..], Step(c, g, st).state, stripe);
    }
  }

  /** The first record of a stripe, a put or a deletion, is output unless it is an obsolete tombstone. */
  lemma PlainHead(c: Config, g: seq<Record>, d: seq<Record>, k: Key, st: State)
    requires Stack(c, g, d, k) && g != [] && !g[0].kind.SingleDeletion? && AtStripe(c, g, k, st)
    ensures var t := Step(c, g, st);
            && t.used == 1 && !t.state.clear && InStripe(c, g[1..], k, t.state, c.StripeOf(g[0]))
            && (t.out.Some? ==> OfStripe(c, t.out.value, k, c.StripeOf(g[0])) && Seen(t.out.value) == Seen(g[0]))
            && (t.out.None? ==> g[0].kind.Deletion? && c.BottomTombstone(g[0]))
  {
    var t := Step(c, g, st);
    if t.out.Some? {
      PreparedOfStripe(c, g[0], k, t.out.value);
    }
    hide OfStripe;
  }

  /** Under an obsolete tombstone everything is in its stripe, and nothing lies beneath. */
  lemma AllInFirstStripe(c: Config, g: seq<Record>, d: seq<Record>, k: Key)
    requires Stack(c, g, d, k) && g != [] && c.BottomTombstone(g[0])
    ensures d == [] && forall i | 0 <= i < |g| :: c.StripeOf(g[i]) == c.StripeOf(g[0])
  {
    forall i | 0 <= i < |g| ensures c.StripeOf(g[i]) == Earliest(c.snapshots) {
      FirstStripe(c.snapshots, g[i].seqno);
    }
  }

  lemma {:induction false} RestInStripe(c: Config, g: seq<Record>, st: State, stripe: nat)
    requires forall i | 0 <= i < |g| :: c.StripeOf(g[i]) == stripe
    ensures Walk(c, g, st, stripe).rest == []
    decreases |g|
  {
    hide Step;
    if g != [] {
      StepUsed(c, g, st);
      RestInStripe(c, g[Step(c, g, st).used..], Step(c, g, st).state, stripe);
    }
  }

  // ---- Reads

  /** What a read finds that sees everything. */
  ghost function Top(g: seq<Record>, d: seq<Record>): Answer {
    if g != [] then Seen(g[0]) else if d != [] then Seen(d[0]) else NotFound
  }

  lemma ReadAll(g: seq<Record>, d: seq<Record>, k: Key, s: nat)
    requires g != [] ==> g[0].key == k && g[0].seqno <= s
    requires d != [] ==> d[0].key == k && d[0].seqno <= s
    ensures Read(g, d, k, s) == Top(g, d)
  {
  }

  lemma {:induction false} ReadPast(a: seq<Record>, b: seq<Record>, d: seq<Record>, k: Key, s: nat)
    requires forall o | o in a :: !(o.seqno <= s)
    ensures Read(a + b, d, k, s) == Read(b, d, k, s)
    decreases |a|
  {
    if a == [] {
      assert a + b == b;
    } else {
      assert (a + b)[1..] == a[1..] + b;
      ReadPast(a[1..], b, d, k, s);
    }
  }

  lemma StripeSeen(c: Config, g: seq<Record>, d: seq<Record>, k: Key, n: nat, s: nat)
    requires Stack(c, g, d, k) && 0 < n <= |g| && ReadPoint(c.snapshots, s)
    requires forall i | 0 <= i < n :: c.StripeOf(g[i]) == c.StripeOf(g[0])
    ensures s < c.StripeOf(g[0]) ==> forall o | o in g[..n] :: !(o.seqno <= s)
    ensures c.StripeOf(g[0]) <= s ==> Read(g, d, k, s) == Seen(g[0])
  {
    forall i | 0 <= i < n ensures g[i].seqno <= s <==> c.StripeOf(g[0]) <= s {
      SeesPrepared(c, g[i], s);
    }
    ReadHead(g[0], g[1..], d, k, s);
    assert g == [g[0]] + g[1..];
  }

  /** A read below a stripe does not see it, before or after; a read at or above it sees its newest record. */
  lemma StripeReads(c: Config, g: seq<Record>, d: seq<Record>, k: Key, st: State, s: nat)
    requires Stack(c, g, d, k) && PeeksOk(c, g) && g != [] && AtStripe(c, g, k, st) && ReadPoint(c.snapshots, s)
    ensures var stripe := c.StripeOf(g[0]);
            var w := Walk(c, g, st, stripe);
            var out := Run(c, w.rest, w.state);
            && (s < stripe ==> Read(g, d, k, s) == Read(w.rest, d, k, s))
            && (s < stripe ==> Read(Run(c, g, st), d, k, s) == Read(out, d, k, s))
            && (stripe <= s ==> Read(g, d, k, s) == Seen(g[0]))
            && (stripe <= s ==>
                  Read(Run(c, g, st), d, k, s) == if w.out != [] then Seen(w.out[0]) else Read(out, d, k, s))
  {
    hide Run, Walk, Read, Stack;
    var stripe := c.StripeOf(g[0]);
    var w := Walk(c, g, st, stripe);
    var out := Run(c, w.rest, w.state);
    WalkStripe(c, g, d, k, st);
    RunWalk(c, g, st, stripe);
    var n := |g| - |w.rest|;
    StripeSeen(c, g, d, k, n, s);
    if s < stripe {
      ReadPast(w.out, out, d, k, s);
      assert g == g[..n] + w.rest;
      ReadPast(g[..n], w.rest, d, k, s);
    } else if w.out != [] {
      assert w.out + out == [w.out[0]] + (w.out[1..] + out);
      assert w.out[0] in w.out;
      ReadHead(w.out[0], w.out[1..] + out, d, k, s);
    } else {
      assert w.out + out == out;
    }
  }

  // ---- Exactly when reads are kept

  /** Wherever a stripe is annihilated, the version just below it, in the input or beneath, reads as absent. */
  ghost predicate Harmless(c: Config, g: seq<Record>, d: seq<Record>, st: State)
    decreases |g|
  {
    g != [] ==>
      var w := Walk(c, g, st, c.StripeOf(g[0]));
      && (Annihilated(c, g, st) ==> Top(w.rest, d) == NotFound)
      && (|w.rest| < |g| ==> Harmless(c, w.rest, d, w.state))
  }

  /** A read that sees a stripe sees all older ones and the deeper levels. */
  lemma SeesOlder(c: Config, g: seq<Record>, d: seq<Record>, k: Key, s: nat)
    requires Stack(c, g, d, k) && g != [] && ReadPoint(c.snapshots, s) && c.StripeOf(g[0]) <= s
    ensures forall i | 0 <= i < |g| :: g[i].seqno <= s
    ensures d != [] ==> d[0].key == k && d[0].seqno <= s
  {
    SeesPrepared(c, g[0], s);
  }

  /** A harmless history reads the same after the run, at every read point. */
  lemma {:induction false} HarmlessReads(c: Config, g: seq<Record>, d: seq<Record>, k: Key, st: State, s: nat)
    requires Stack(c, g, d, k) && PeeksOk(c, g) && AtStripe(c, g, k, st) && ReadPoint(c.snapshots, s)
    requires Harmless(c, g, d, st)
    ensures Read(Run(c, g, st), d, k, s) == Read(g, d, k, s)
    decreases |g|
  {
    hide Run, Walk, Read, Stack, PeeksOk, AtStripe;
    if g == [] {
      RunEmpty(c, st);
    } else {
      var w := Walk(c, g, st, c.StripeOf(g[0]));
      WalkStripe(c, g, d, k, st);
      StripeReads(c, g, d, k, st, s);
      StackRest(c, g, d, k, |g| - |w.rest|);
      HarmlessReads(c, w.rest, d, k, w.state, s);
      if c.StripeOf(g[0]) <= s {
        SeesOlder(c, g, d, k, s);
        ReadAll(w.rest, d, k, s) by {
          KeyOf(c, g, d, k);
        }
      }
    }
  }

  lemma KeyOf(c: Config, g: seq<Record>, d: seq<Record>, k: Key)
    requires Stack(c, g, d, k)
    ensures forall i | 0 <= i < |g| :: g[i].key == k
  {
  }

  /** Where a history is not harmless, some read changes: at the lowest stripe that should not have vanished. */
  lemma {:induction false} HarmShows(c: Config, g: seq<Record>, d: seq<Record>, k: Key, st: State) returns (s: nat)
    requires Stack(c, g, d, k) && PeeksOk(c, g) && AtStripe(c, g, k, st) && !Harmless(c, g, d, st)
    ensures g != [] && ReadPoint(c.snapshots, s) && s <= c.StripeOf(g[0])
    ensures Read(Run(c, g, st), d, k, s) != Read(g, d, k, s)
    decreases |g|
  {
    hide Run, Walk, Read, Stack, PeeksOk, AtStripe;
    var stripe := c.StripeOf(g[0]);
    var w := Walk(c, g, st, stripe);
    WalkStripe(c, g, d, k, st);
    StackRest(c, g, d, k, |g| - |w.rest|);
    if Harmless(c, w.rest, d, w.state) {
      s := stripe;
      StripeIsReadPoint(c.snapshots, g[0].seqno);
      StripeReads(c, g, d, k, st, s);
      HarmlessReads(c, w.rest, d, k, w.state, s);
      SeesOlder(c, g, d, k, s);
      KeyOf(c, g, d, k);
      ReadAll(w.rest, d, k, s);
    } else {
      s := HarmShows(c, w.rest, d, k, w.state);
      StripeBelow(c, g, d, k, |g| - |w.rest|);
      StripeReads(c, g, d, k, st, s);
    }
  }

  lemma StripeBelow(c: Config, g: seq<Record>, d: seq<Record>, k: Key, n: nat)
    requires Stack(c, g, d, k) && 0 < n < |g| && c.StripeOf(g[n]) != c.StripeOf(g[0])
    ensures c.StripeOf(g[n]) < c.StripeOf(g[0])
  {
    StripeMonotone(c.snapshots, g[n].seqno, g[0].seqno);
  }

  // ---- What is harmless

  /** Without single deletes nothing is annihilated. */
  lemma {:induction false} PlainHarmless(c: Config, g: seq<Record>, d: seq<Record>, k: Key, st: State)
    requires Stack(c, g, d, k) && AtStripe(c, g, k, st) && NoSingleDelete(g)
    ensures Harmless(c, g, d, st)
    decreases |g|
  {
    hide Walk, Stack, AtStripe;
    if g != [] {
      var w := Walk(c, g, st, c.StripeOf(g[0]));
      assert PeeksOk(c, g);
      WalkStripe(c, g, d, k, st);
      StackTail(c, g, d, k, |g| - |w.rest|);
      PlainHarmless(c, w.rest, d, k, w.state);
    }
  }

  lemma AlternatingTail(g: seq<Record>, d: seq<Record>, n: nat)
    requires Alternating(g + d) && n <= |g|
    ensures Alternating(g[n..] + d)
    ensures n >= 1 && |g[n..] + d| > 0 ==> (g[n..] + d)[0].kind != g[n - 1].kind
  {
    assert (g + d)[n..] == g[n..] + d;
    if n >= 1 && |g[n..] + d| > 0 {
      assert (g + d)[n - 1].kind != (g + d)[n].kind;
    }
  }

  /** Where single deletes alternate with puts, a stripe that disappears ends with a put, or nothing lies beneath. */
  lemma {:induction false} AlternatingVanish(c: Config, g: seq<Record>, d: seq<Record>, k: Key, st: State, stripe: nat)
    requires Stack(c, g, d, k) && PeeksOk(c, g) && InStripe(c, g, k, st, stripe) && !st.clear && Alternating(g + d)
    requires g + d != [] ==> (g + d)[0].kind.SingleDeletion?
    requires Walk(c, g, st, stripe).out == []
    ensures Top(Walk(c, g, st, stripe).rest, d) == NotFound
    decreases |g|
  {
    hide Stack, PeeksOk, Step;
    if g != [] {
      assert (g + d)[0] == g[0];
      if c.StripeOf(g[0]) == stripe {
        TurnInStripe(c, g, d, k, st, stripe);
        var t := Step(c, g, st);
        StackRest(c, g, d, k, t.used);
        AlternatingTail(g, d, t.used);
        TurnGuards(c, g, d, k, st, stripe);
        if |g| > 1 {
          assert (g + d)[1] == g[1];
          AlternatingVanish(c, g[t.used..], d, k, t.state, stripe);
        } else {
          AllInFirstStripe(c, g, d, k);
        }
      }
    } else {
      assert g + d == d;
    }
  }

  lemma {:induction false} AlternatingHarmless(c: Config, g: seq<Record>, d: seq<Record>, k: Key, st: State)
    requires Stack(c, g, d, k) && PeeksOk(c, g) && AtStripe(c, g, k, st) && Alternating(g + d)
    ensures Harmless(c, g, d, st)
    decreases |g|
  {
    hide Walk, Stack, PeeksOk;
    if g != [] {
      var w := Walk(c, g, st, c.StripeOf(g[0]));
      WalkStripe(c, g, d, k, st);
      assert (g + d)[0] == g[0];
      if Annihilated(c, g, st) {
        AlternatingVanish(c, g, d, k, st, c.StripeOf(g[0]));
      }
      StackRest(c, g, d, k, |g| - |w.rest|);
      AlternatingTail(g, d, |g| - |w.rest|);
      AlternatingHarmless(c, w.rest, d, k, w.state);
    }
  }

  lemma TurnGuards(c: Config, g: seq<Record>, d: seq<Record>, k: Key, st: State, stripe: nat)
    requires Stack(c, g, d, k) && PeeksOk(c, g) && InStripe(c, g, k, st, stripe) && !st.clear
    requires g != [] && c.StripeOf(g[0]) == stripe
    ensures var t := Step(c, g, st);
            var outputted := st.Enter(k).outputted;
            && (t.out.None? && |g| > 1 ==> t.state.Enter(k).outputted == outputted)
            && (!g[0].kind.SingleDeletion? ==> t.out.None? && t.used == 1)
            && (g[0].kind.SingleDeletion? && |g| == 1 ==> (t.out.None? <==> c.BottomTombstone(g[0])))
            && (g[0].kind.SingleDeletion? && |g| > 1 ==>
                  && (t.out.None? <==>
                        && c.StripeOf(g[1]) == stripe
                        && (g[1].kind.SingleDeletion? || outputted || g[0].seqno <= c.writeConflict))
                  && (t.out.None? ==> t.used == if g[1].kind.SingleDeletion? then 1 else 2))
  {
    if |g| > 1 && g[0].kind.SingleDeletion? {
      SameStripeIffAbovePrevious(c.snapshots, g[1].seqno, g[0].seqno);
    }
  }

  // ---- By the guards

  function StripeLength(c: Config, g: seq<Record>, stripe: nat): (n: nat)
    ensures n <= |g| && (forall i | 0 <= i < n :: c.StripeOf(g[i]) == stripe)
    ensures n < |g| ==> c.StripeOf(g[n]) != stripe
  {
    if g == [] || c.StripeOf(g[0]) != stripe then 0 else 1 + StripeLength(c, g[1..], stripe)
  }

  /** The stripe ends where `left` records are left. */
  ghost predicate StripeEnds(c: Config, g: seq<Record>, stripe: nat, left: nat) {
    && left <= |g| && (forall i | 0 <= i < |g| - left :: c.StripeOf(g[i]) == stripe)
    && (left > 0 ==> c.StripeOf(g[|g| - left]) != stripe)
  }

  lemma StripeEndsRest(c: Config, g: seq<Record>, stripe: nat, left: nat, n: nat)
    requires StripeEnds(c, g, stripe, left) && n <= |g| && forall i | 0 <= i < n :: c.StripeOf(g[i]) == stripe
    ensures n <= |g| - left && StripeEnds(c, g[n..], stripe, left)
    ensures left == |g| && g != [] ==> c.StripeOf(g[0]) != stripe
    ensures left < |g| ==> c.StripeOf(g[0]) == stripe
  {
  }

  lemma WalkTurn(c: Config, g: seq<Record>, st: State, stripe: nat)
    requires g != [] && c.StripeOf(g[0]) == stripe && Step(c, g, st).used <= |g|
    ensures var t := Step(c, g, st);
            var w := Walk(c, g[t.used..], t.state, stripe);
            Walk(c, g, st, stripe) == w.(out := (if t.out.Some? then [t.out.value] else []) + w.out)
  {
    hide Step;
    StepUsed(c, g, st);
  }

  lemma WalkStop(c: Config, g: seq<Record>, st: State, stripe: nat)
    requires g != [] ==> c.StripeOf(g[0]) != stripe
    ensures Walk(c, g, st, stripe) == Walked([], g, st)
  {
  }

  /** The walk over a stripe outputs as many records as the guards say, and leaves the flags that follow. */
  lemma {:induction false} WalkCount(c: Config, g: seq<Record>, d: seq<Record>, k: Key, st: State, stripe: nat,
          left: nat, last: nat, n: nat, enough: nat)
    requires Stack(c, g, d, k) && PeeksOk(c, g) && left <= |g|
    requires g != [] ==> Counts(st, k, n, enough) && last == Last(st, k)
    requires StripeEnds(c, g, stripe, left)
    ensures Counted(k, g, Walk(c, g, st, stripe), left, if left < |g| then stripe else last, n,
                    Outputs(c, g, left, last, n, enough), enough)
    decreases |g|
  {
    hide Step, Counts, Stack, PeeksOk, Outputs, Config.StripeOf, Peeked, Walk, StripeEnds, Counted;
    StripeEndsRest(c, g, stripe, left, 0);
    if left == |g| {
      WalkStop(c, g, st, stripe);
      OutputsNone(c, g, left, last, n, enough);
      CountedStop(k, g, st, last, n, enough);
    } else {
      var used, out, next := NextCount(c, g, d, k, st, stripe, left, last, n, enough);
      WalkCount(c, g[used..], d, k, next, stripe, left, stripe, n + |out|, enough);
      CountedMore(k, g, used, Walk(c, g[used..], next, stripe), out, left, stripe, n,
                  Outputs(c, g, left, last, n, enough), enough);
    }
  }

  /** One turn inside a stripe, or two where one keeps the next record back. */
  lemma NextCount(c: Config, g: seq<Record>, d: seq<Record>, k: Key, st: State, stripe: nat, left: nat, last: nat,
          n: nat, enough: nat)
    returns (used: nat, out: seq<Record>, next: State)
    requires Stack(c, g, d, k) && PeeksOk(c, g) && StripeEnds(c, g, stripe, left) && left < |g|
    requires Counts(st, k, n, enough) && last == Last(st, k)
    ensures 0 < used && used + left <= |g|
    ensures Stack(c, g[used..], d, k) && PeeksOk(c, g[used..]) && StripeEnds(c, g[used..], stripe, left)
    ensures g[used..] != [] ==> Counts(next, k, n + |out|, enough) && Last(next, k) == stripe
    ensures var w := Walk(c, g[used..], next, stripe); Walk(c, g, st, stripe) == w.(out := out + w.out)
    ensures Outputs(c, g, left, last, n, enough) == Outputs(c, g[used..], left, stripe, n + |out|, enough)
  {
    hide Step, Counts, Stack, PeeksOk, Outputs, Config.StripeOf, Peeked, Walk, StripeEnds;
    StripeEndsRest(c, g, stripe, left, 0);
    KeyOf(c, g, d, k);
    PeekIsStripe(c, g, d, k);
    var t := Step(c, g, st);
    if t.state.clear {
      TurnsCount(c, g, st, k, left, n, enough);
      WalkTwice(c, g, st, stripe);
      var u := Step(c, g[1..], t.state);
      used, out, next := 2, [t.out.value] + [u.out.value], u.state;
    } else {
      TurnCounts(c, g, st, k, left, n, enough);
      WalkTurn(c, g, st, stripe);
      used, out, next := t.used, if t.out.Some? then [t.out.value] else [], t.state;
    }
    StripeEndsRest(c, g, stripe, left, used);
    StackRest(c, g, d, k, used);
  }

  /** A walk that stops where `left` records are left, in stripe `last`, with `m` records output and the flags for
      it. */
  predicate Counted(k: Key, g: seq<Record>, w: Walked, left: nat, last: nat, n: nat, m: nat, enough: nat) {
    && left <= |g| && w.rest == g[|g| - left..] && |w.out| + n == m
    && (w.rest != [] ==> Counts(w.state, k, m, enough) && Last(w.state, k) == last)
  }

  lemma CountedStop(k: Key, g: seq<Record>, st: State, last: nat, n: nat, enough: nat)
    requires g != [] ==> Counts(st, k, n, enough) && last == Last(st, k)
    ensures Counted(k, g, Walked([], g, st), |g|, last, n, n, enough)
  {
  }

  lemma CountedMore(k: Key, g: seq<Record>, used: nat, w: Walked, out: seq<Record>, left: nat, last: nat, n: nat,
          m: nat, enough: nat)
    requires used + left <= |g| && Counted(k, g[used..], w, left, last, n + |out|, m, enough)
    ensures Counted(k, g, w.(out := out + w.out), left, last, n, m, enough)
  {
    RestOfRest(g, used, left);
  }

  lemma RestOfRest(g: seq<Record>, n: nat, left: nat)
    requires n + left <= |g|
    ensures g[n..][|g[n..]| - left..] == g[|g| - left..]
  {
  }

  lemma PeekIsStripe(c: Config, g: seq<Record>, d: seq<Record>, k: Key)
    requires Stack(c, g, d, k) && PeeksOk(c, g)
    ensures |g| > 1 && g[0].kind.SingleDeletion? ==> (Peeked(c, g[0], g[1]) <==> c.StripeOf(g[1]) == c.StripeOf(g[0]))
  {
    if |g| > 1 && g[0].kind.SingleDeletion? {
      SameStripeIffAbovePrevious(c.snapshots, g[1].seqno, g[0].seqno);
    }
  }

  lemma WalkTwice(c: Config, g: seq<Record>, st: State, stripe: nat)
    requires |g| > 1 && c.StripeOf(g[0]) == stripe == c.StripeOf(g[1])
    requires Step(c, g, st).used == 1 && Step(c, g[1..], Step(c, g, st).state).used == 1
    requires Step(c, g, st).out.Some? && Step(c, g[1..], Step(c, g, st).state).out.Some?
    ensures var t := Step(c, g, st);
            var u := Step(c, g[1..], t.state);
            var w := Walk(c, g[2..], u.state, stripe);
            Walk(c, g, st, stripe) == w.(out := [t.out.value] + [u.out.value] + w.out)
  {
    hide Step;
    assert g[1..][1..] == g[2..];
  }

  /** `Harmless` by the guards alone: where a stripe that begins with a single delete outputs nothing, the version just
      below it reads as absent. */
  ghost predicate HarmlessBy(c: Config, g: seq<Record>, d: seq<Record>, last: nat, n: nat, enough: nat)
    decreases |g|
  {
    g != [] ==>
      var stripe := c.StripeOf(g[0]);
      var rest := g[StripeLength(c, g, stripe)..];
      var m := Outputs(c, g, |rest|, last, n, enough);
      && (g[0].kind.SingleDeletion? && m == n ==> Top(rest, d) == NotFound)
      && HarmlessBy(c, rest, d, stripe, m, enough)
  }

  /** A stripe is annihilated exactly if its newest record is a single delete and the guards let all of it go. */
  lemma AnnihilatedIff(c: Config, g: seq<Record>, d: seq<Record>, k: Key, st: State, n: nat, enough: nat)
    requires Stack(c, g, d, k) && PeeksOk(c, g) && g != [] && Counts(st, k, n, enough)
    ensures var rest := g[StripeLength(c, g, c.StripeOf(g[0]))..];
            Annihilated(c, g, st) <==>
            g[0].kind.SingleDeletion? && Outputs(c, g, |rest|, Last(st, k), n, enough) == n
  {
    hide Walk, Outputs, Stack, PeeksOk, Counts;
    var stripe := c.StripeOf(g[0]);
    WalkCount(c, g, d, k, st, stripe, |g| - StripeLength(c, g, stripe), Last(st, k), n, enough);
  }

  lemma {:induction false} HarmlessIff(c: Config, g: seq<Record>, d: seq<Record>, k: Key, st: State, last: nat, n: nat,
          enough: nat)
    requires Stack(c, g, d, k) && PeeksOk(c, g)
    requires g != [] ==> AtStripe(c, g, k, st) && Counts(st, k, n, enough) && last == Last(st, k)
    ensures Harmless(c, g, d, st) <==> HarmlessBy(c, g, d, last, n, enough)
    decreases |g|
  {
    hide Walk, Stack, PeeksOk, Outputs;
    if g != [] {
      var stripe := c.StripeOf(g[0]);
      var len := StripeLength(c, g, stripe);
      AnnihilatedIff(c, g, d, k, st, n, enough);
      WalkCount(c, g, d, k, st, stripe, |g| - len, last, n, enough);
      StackRest(c, g, d, k, len);
      HarmlessIff(c, g[len..], d, k, Walk(c, g, st, stripe).state, stripe, Outputs(c, g, |g| - len, last, n, enough),
        enough);
    }
  }
}
