/** What a whole compaction guarantees, key by key. */
module IteratorTheorems {
  import opened Options
  import opened Records
  import opened Snapshots
  import opened IteratorSpec
  import opened IteratorGroups
  import opened IteratorGuards
  import opened IteratorMeaning
  import opened IteratorZero

  /** A sorted input over deeper levels that hold only older versions of key `k`. */
  ghost predicate Placed(c: Config, input: seq<Record>, deeper: seq<Record>, k: Key) {
    && c.Valid() && Sorted(input) && Bounded(input)
    && (c.compaction.Some? ==> c.compaction.value.Beneath(input, deeper))
    && History(VersionsOf(deeper, k), k)
    && Older(VersionsOf(deeper, k), VersionsOf(input, k))
  }

  /** The key never had a single delete in this input, or its whole history takes turns. */
  ghost predicate WellUsed(input: seq<Record>, deeper: seq<Record>, k: Key) {
    || NoSingleDelete(VersionsOf(input, k))
    || Alternating(VersionsOf(input, k) + VersionsOf(deeper, k))
  }

  lemma PlacedStack(c: Config, input: seq<Record>, deeper: seq<Record>, k: Key)
    requires Placed(c, input, deeper, k) && VersionsOf(input, k) != []
    ensures Stack(c, VersionsOf(input, k), VersionsOf(deeper, k), k)
  {
    var g := VersionsOf(input, k);
    var _, g', _ := SplitAtKey(input, k);
    forall v | 0 <= v < |g| ensures g[v].seqno <= MAX_SEQ {
      var i := VersionIndex(input, k, v);
    }
    if c.compaction.Some? && c.compaction.value.AbsentBeyond(k) {
      var i := VersionIndex(input, k, 0);
      c.compaction.value.AbsentMeansNoRecord(input, deeper, i);
    }
  }

  /** The reads of key `k` are the same over the output and over the input. */
  ghost predicate ReadsKept(c: Config, input: seq<Record>, output: seq<Record>, deeper: seq<Record>, k: Key) {
    forall s | ReadPoint(c.snapshots, s) :: Read(output, deeper, k, s) == Read(input, deeper, k, s)
  }

  /** Any output that holds key `k`'s run keeps its reads exactly if the history is safe. */
  lemma ReadsFromHistory(c: Config, input: seq<Record>, output: seq<Record>, deeper: seq<Record>, k: Key, first: bool)
    requires Placed(c, input, deeper, k) && VersionsOf(output, k) == Run(c, VersionsOf(input, k), Fresh(first))
    ensures ReadsKept(c, input, output, deeper, k) <==>
            Safe(c, VersionsOf(input, k), VersionsOf(deeper, k), Enough(first))
  {
    hide Run, Read, VersionsOf, Safe;
    var g, d := VersionsOf(input, k), VersionsOf(deeper, k);
    forall s | ReadPoint(c.snapshots, s)
      ensures Read(output, deeper, k, s) == Read(Run(c, g, Fresh(first)), d, k, s)
      ensures Read(input, deeper, k, s) == Read(g, d, k, s)
    {
      ReadOfVersions(input, deeper, k, s);
      ReadOfVersions(output, deeper, k, s);
    }
    if g == [] {
      RunEmpty(c, Fresh(first));
      NoneSafe(c, d, Enough(first));
    } else {
      PlacedStack(c, input, deeper, k);
      KeptExactly(c, g, d, k, first);
    }
  }

  lemma NoneSafe(c: Config, d: seq<Record>, enough: nat)
    ensures Safe(c, [], d, enough)
  {
  }

  /** Exactly when a compaction can be told, for every mix of puts, deletions and single deletes and every list of
      snapshots: all reads of the key, at live snapshots and at the tip, are kept if and only if by the guards no stripe
      of it vanishes over a value and no put at 0 is lost. */
  lemma ReadsKeptExactly(c: Config, input: seq<Record>, deeper: seq<Record>, k: Key)
    requires Placed(c, input, deeper, k)
    ensures ReadsKept(c, input, Compact(c, input), deeper, k) <==>
            Safe(c, VersionsOf(input, k), VersionsOf(deeper, k), EnoughFor(c, input, k))
  {
    hide Run, Read, VersionsOf, Safe, NothingBefore, Compact, Silent, ReadsKept;
    var first := KeyRun(c, input, k);
    SilentIff(c, input, k);
    ReadsFromHistory(c, input, Compact(c, input), deeper, k, first);
  }

  /** The documented use of single deletes is harmless. */
  lemma WellUsedHarmless(c: Config, input: seq<Record>, deeper: seq<Record>, k: Key, first: bool)
    requires Placed(c, input, deeper, k) && WellUsed(input, deeper, k)
    ensures HarmlessBy(c, Above(c, VersionsOf(input, k)), VersionsOf(deeper, k), 0, 0, Enough(first))
  {
    hide VersionsOf, HarmlessBy;
    var g, d := VersionsOf(input, k), VersionsOf(deeper, k);
    if g == [] {
      NoneHarmless(c, d, Enough(first));
    } else {
      PlacedStack(c, input, deeper, k);
      UsedHarmless(c, g, d, k, first);
    }
  }

  lemma NoneHarmless(c: Config, d: seq<Record>, enough: nat)
    ensures HarmlessBy(c, [], d, 0, 0, enough)
  {
  }

  lemma UsedHarmless(c: Config, g: seq<Record>, d: seq<Record>, k: Key, first: bool)
    requires Stack(c, g, d, k) && g != [] && (NoSingleDelete(g) || Alternating(g + d))
    ensures HarmlessBy(c, Above(c, g), d, 0, 0, Enough(first))
  {
    hide HarmlessBy, Harmless, Stack, PeeksOk;
    var a := Above(c, g);
    if Crossing(c, g) {
      CrossedFacts(c, g, d, k);
      assert (g + d)[..|a|] == a + d;
    } else {
      NotMistaken(c, g, d, k);
    }
    if c.StripeOf(a[0]) == 0 {
      AloneAtZero(c, g, d, k, first);
    } else {
      if NoSingleDelete(a) {
        PlainHarmless(c, a, d, k, Fresh(first));
      } else {
        AlternatingHarmless(c, a, d, k, Fresh(first));
      }
      HarmlessIff(c, a, d, k, Fresh(first), 0, 0, Enough(first));
    }
  }

  /** Main theorem: with the documented use of single deletes no live snapshot, and no read at the tip, can tell that a
      compaction ran, unless a put with sequence 0 is lost under a snapshot numbered 0. It covers dropped versions,
      dropped tombstones, annihilated single-delete pairs, emptied puts and squashed sequence numbers. */
  lemma CompactionPreservesReads(c: Config, input: seq<Record>, deeper: seq<Record>, k: Key)
    requires Placed(c, input, deeper, k) && WellUsed(input, deeper, k)
    ensures ReadsKept(c, input, Compact(c, input), deeper, k) <==>
            !LostAtZero(c, VersionsOf(input, k), EnoughFor(c, input, k))
    ensures 0 !in c.snapshots ==> ReadsKept(c, input, Compact(c, input), deeper, k)
  {
    hide Compact, VersionsOf, HarmlessBy, ReadsKept, LostAtZero, Placed, WellUsed, Silent;
    WellUsedHarmless(c, input, deeper, k, Silent(c, input, k));
    ReadsKeptExactly(c, input, deeper, k);
    LostUnderZero(c, input, deeper, k, EnoughFor(c, input, k));
  }

  lemma LostUnderZero(c: Config, input: seq<Record>, deeper: seq<Record>, k: Key, enough: nat)
    requires Placed(c, input, deeper, k)
    ensures LostAtZero(c, VersionsOf(input, k), enough) ==> 0 in c.snapshots
  {
    hide VersionsOf;
    var g := VersionsOf(input, k);
    if LostAtZero(c, g, enough) {
      PlacedStack(c, input, deeper, k);
      AtZero(c, g, VersionsOf(deeper, k), k, |g| - 1);
    }
  }

  /** A key's only record, a put at sequence 0, under a snapshot numbered 0. */
  ghost predicate LonePutUnderZero(c: Config, g: seq<Record>) {
    0 in c.snapshots && |g| == 1 && g[0].kind.Value? && g[0].seqno == 0
  }

  /** A put lost at 0 shows for every mix of records; for puts and deletions exactly a lone one is lost. */
  lemma ZeroSnapshotExactly(c: Config, input: seq<Record>, deeper: seq<Record>, k: Key)
    requires Placed(c, input, deeper, k)
    ensures LostAtZero(c, VersionsOf(input, k), EnoughFor(c, input, k)) ==>
              !ReadsKept(c, input, Compact(c, input), deeper, k)
    ensures NoSingleDelete(VersionsOf(input, k)) ==>
              (ReadsKept(c, input, Compact(c, input), deeper, k) <==> !LonePutUnderZero(c, VersionsOf(input, k)))
  {
    hide VersionsOf, ReadsKept, Compact, HarmlessBy;
    ReadsKeptExactly(c, input, deeper, k);
    var g := VersionsOf(input, k);
    if g != [] && NoSingleDelete(g) {
      PlacedStack(c, input, deeper, k);
      ZeroIsStripe(c, g);
      CompactionPreservesReads(c, input, deeper, k);
    } else if g == [] {
      CompactionPreservesReads(c, input, deeper, k);
    }
  }

  lemma ZeroIsStripe(c: Config, g: seq<Record>)
    requires g != [] && c.Valid() && Bounded(g)
    ensures c.StripeOf(g[|g| - 1]) == 0 <==> 0 in c.snapshots && g[|g| - 1].seqno == 0
  {
    var r := g[|g| - 1];
    VisibleIffStripe(c.snapshots, r.seqno, MAX_SEQ);
    StripeIsReadPoint(c.snapshots, r.seqno);
    if 0 in c.snapshots {
      VisibleIffStripe(c.snapshots, r.seqno, 0);
    }
  }

  // ---- Inputs at which reads change

  /** A lone put is lost at the tip. */
  lemma ZeroSnapshotLoses()
    ensures var c := Config([0], MAX_SEQ, None, 0);
            var input := [Record(7, 0, Value, "x")];
            && Placed(c, input, [], 7) && LonePutUnderZero(c, VersionsOf(input, 7))
            && Read(input, [], 7, MAX_SEQ) == Found("x") && Read(Compact(c, input), [], 7, MAX_SEQ) == NotFound
  {
    var c := Config([0], MAX_SEQ, None, 0);
    var input := [Record(7, 0, Value, "x")];
    VersionsOfAll(input, 7);
    assert Step(c, input, Fresh(true)) == Turn(1, None, Step(c, input, Fresh(true)).state);
    assert input[1..] == [];
    assert Compact(c, input) == [];
  }

  /** A put under a single delete, used as documented, is lost at snapshot 0, or read as empty there if a transaction
      needs the delete. */
  lemma DeletedAtZero(c: Config, input: seq<Record>)
    requires c == Config([0], MAX_SEQ, None, 0) || c == Config([0], 0, None, 0)
    requires input == [Record(7, 1, SingleDeletion, ""), Record(7, 0, Value, "x")]
    ensures Placed(c, input, [], 7) && WellUsed(input, [], 7) && !LonePutUnderZero(c, VersionsOf(input, 7))
    ensures Read(input, [], 7, 0) == Found("x")
    ensures Read(Compact(c, input), [], 7, 0) == if c.writeConflict == 0 then Found("") else NotFound
  {
    hide Run, Read, Config.Prepare, Placed;
    var r, z := input[0], input[1];
    assert input == [r, z] && [r, z] == [r] + [z];
    VersionsOfAll(input, 7);
    assert input + [] == input;
    PairPlaced(c, input, [], 7);
    TailRun(c, r, z, Fresh(true), 7, 0, 2);
    TailAtZero(r, z, 7);
    ReadPast([r], [z], [], 7, 0);
    ReadNothing(7, 0);
    assert c.Prepare(r) == r && c.Prepare(z.(value := "")) == z.(value := "") by {
      NoFlushSquash(c, r);
      NoFlushSquash(c, z.(value := ""));
    }
  }

  lemma ReadNothing(k: Key, s: nat)
    ensures Read([], [], k, s) == NotFound
  {
  }

  lemma NoFlushSquash(c: Config, r: Record)
    requires c.compaction.None?
    ensures c.Prepare(r) == r
  {
  }

  /** Two versions of a key over at most one older one. */
  lemma PairPlaced(c: Config, input: seq<Record>, deeper: seq<Record>, k: Key)
    requires c.Valid() && c.compaction.None? && |input| == 2 && input[0].key == k == input[1].key
    requires input[1].seqno < input[0].seqno <= MAX_SEQ
    requires |deeper| <= 1 && forall i | 0 <= i < |deeper| :: deeper[i].key == k && deeper[i].seqno < input[1].seqno
    ensures Placed(c, input, deeper, k)
  {
    VersionsOfAll(input, k);
    VersionsOfAll(deeper, k);
  }

  /** Two puts under one single delete: the older put, beneath, comes back to life. */
  lemma SingleDeleteOverTwoPuts()
    ensures var c := Config([], MAX_SEQ, None, 0);
            var input := [Record(7, 3, SingleDeletion, ""), Record(7, 2, Value, "new")];
            var deeper := [Record(7, 1, Value, "old")];
            && Placed(c, input, deeper, 7)
            && Read(input, deeper, 7, MAX_SEQ) == NotFound
            && Read(Compact(c, input), deeper, 7, MAX_SEQ) == Found("old")
  {
    var c := Config([], MAX_SEQ, None, 0);
    var input := [Record(7, 3, SingleDeletion, ""), Record(7, 2, Value, "new")];
    var deeper := [Record(7, 1, Value, "old")];
    hide Run, Placed;
    PairPlaced(c, input, deeper, 7);
    var t := Step(c, input, Fresh(true));
    assert t.used == 2 && t.out.None? && input[2..] == [];
    RunOnce(c, input, Fresh(true));
    RunEmpty(c, t.state);
    assert Compact(c, input) == [];
  }

  /** The documented use is not necessary: a single delete under two puts is safe too. */
  lemma MisuseCanBeHarmless(c: Config, input: seq<Record>, k: Key)
    requires c == Config([], MAX_SEQ, None, 0)
    requires input == [Record(k, 3, Value, "a"), Record(k, 2, Value, "b"), Record(k, 1, SingleDeletion, "")]
    ensures !WellUsed(input, [], k) && Safe(c, VersionsOf(input, k), [], EnoughFor(c, input, k))
  {
    VersionsOfAll(input, k);
    var g := VersionsOf(input, k);
    assert g == input;
    assert g[2].kind.SingleDeletion? && (g + [])[0].kind == (g + [])[1].kind;
    assert forall i | 0 <= i < |g| :: c.StripeOf(g[i]) == MAX_SEQ;
    var len := StripeLength(c, g, MAX_SEQ);
    assert len == 3;
    NoneHarmless(c, [], EnoughFor(c, input, k));
  }
}
