/** The iterator treats each user key on its own: cutting the input between two keys cuts
    the output at the same place, and the output for one key comes from its history alone. */
module IteratorGroups {
  import opened Options
  import opened Records
  import opened IteratorSpec

  /** A record kept back by a single delete is still to come, and is of the same key. */
  predicate ClearPending(rest: seq<Record>, st: State) {
    st.clear ==> rest != [] && st.hasKey && rest[0].key == st.key
  }

  /** Nothing in the state depends on the next record's key. */
  predicate Leaves(st: State, rest: seq<Record>) {
    !st.clear && (rest != [] && st.hasKey ==> st.key != rest[0].key)
  }

  lemma StepState(c: Config, rest: seq<Record>, st: State)
    requires rest != [] && ClearPending(rest, st)
    ensures var t := Step(c, rest, st);
            && 1 <= t.used <= 2 && t.used <= |rest|
            && (t.used == 2 ==> rest[1].key == rest[0].key)
            && (t.state.hasKey ==> t.state.key == rest[0].key)
            && ClearPending(rest[t.used..], t.state)
            && t.state.first == (st.first && t.out.None?)
            && (t.out.Some? ==>
                  exists r: Record | r == rest[0] || r == rest[0].(value := "") :: t.out.value == c.Prepare(r))
  {
    hide Config.Prepare;
    var r := rest[0];
    var t := Step(c, rest, st);
    assert t.out.Some? ==> t.out.value == c.Prepare(r) || t.out.value == c.Prepare(r.(value := ""));
  }

  /** Entering a new key forgets everything but whether a record was output. */
  lemma RunForgets(c: Config, rest: seq<Record>, st: State)
    requires Leaves(st, rest)
    ensures Run(c, rest, st) == Run(c, rest, Fresh(st.first))
  {
    if rest != [] {
      assert st.Enter(rest[0].key) == Fresh(st.first).Enter(rest[0].key);
    }
  }

  /** Looking one record ahead never reaches a different key. */
  lemma StepLocal(c: Config, a: seq<Record>, b: seq<Record>, st: State)
    requires a != []
    requires |a| == 1 && b != [] ==> a[0].key != b[0].key
    ensures Step(c, a + b, st) == Step(c, a, st)
  {
    assert (a + b)[0] == a[0];
    if |a| > 1 {
      assert (a + b)[1] == a[1];
    } else if b != [] {
      assert (a + b)[1] == b[0];
    }
  }

  lemma RunOnce(c: Config, rest: seq<Record>, st: State)
    requires rest != []
    ensures var t := Step(c, rest, st);
            Run(c, rest, st) == (if t.out.Some? then [t.out.value] else []) + Run(c, rest[t.used..], t.state)
  {
  }

  lemma RunEmpty(c: Config, st: State)
    ensures Run(c, [], st) == []
  {
  }

  lemma {:induction false} RunSplit(c: Config, a: seq<Record>, b: seq<Record>, st: State)
    requires ClearPending(a, st)
    requires a == [] ==> Leaves(st, b)
    requires a != [] && b != [] ==> a[|a| - 1].key != b[0].key
    ensures Run(c, a + b, st) == Run(c, a, st) + Run(c, b, Fresh(st.first && Run(c, a, st) == []))
    decreases |a|
  {
    hide Step;
    hide Run;
    if a == [] {
      assert a + b == b;
      RunForgets(c, b, st);
      RunEmpty(c, st);
    } else {
      StepLocal(c, a, b, st);
      StepState(c, a, st);
      var t := Step(c, a, st);
      var a1 := a[t.used..];
      assert (a + b)[t.used..] == a1 + b;
      RunSplit(c, a1, b, t.state);
      RunOnce(c, a, st);
      RunOnce(c, a + b, st);
      JoinOutput(t.out, Run(c, a1, t.state), Run(c, b, Fresh(t.state.first && Run(c, a1, t.state) == [])));
    }
  }

  lemma JoinOutput(out: Option<Record>, a: seq<Record>, b: seq<Record>)
    ensures var o := if out.Some? then [out.value] else [];
            o + (a + b) == (o + a) + b && (o + a == [] <==> out.None? && a == [])
  {
  }

  /** Every output record is an input record, possibly emptied or with its sequence squashed. */
  lemma {:induction false} OutputFromInput(c: Config, rest: seq<Record>, st: State, o: nat) returns (i: nat)
    requires ClearPending(rest, st) && o < |Run(c, rest, st)|
    ensures i < |rest|
    ensures Run(c, rest, st)[o] == c.Prepare(rest[i]) || Run(c, rest, st)[o] == c.Prepare(rest[i].(value := ""))
    decreases |rest|
  {
    StepState(c, rest, st);
    RunOnce(c, rest, st);
    var t := Step(c, rest, st);
    hide Run;
    hide Step;
    if t.out.Some? && o == 0 {
      i := 0;
    } else {
      var j := OutputFromInput(c, rest[t.used..], t.state, if t.out.Some? then o - 1 else o);
      i := j + t.used;
    }
  }

  /** Nothing is output before key `k`. */
  ghost predicate NothingBefore(out: seq<Record>, k: Key) {
    forall o | 0 <= o < |out| :: out[o].key >= k
  }

  /** The output for one key is the run over that key's history. */
  lemma KeyRun(c: Config, input: seq<Record>, k: Key) returns (first: bool)
    requires Sorted(input)
    ensures VersionsOf(Compact(c, input), k) == Run(c, VersionsOf(input, k), Fresh(first))
    ensures first == NothingBefore(Compact(c, input), k)
  {
    hide Run, VersionsOf, Sorted, NothingBefore;
    first := RangeKeyRun(c, input, k, true);
  }

  lemma RangeKeyRun(c: Config, input: seq<Record>, k: Key, start: bool) returns (first: bool)
    requires Sorted(input)
    ensures VersionsOf(Run(c, input, Fresh(start)), k) == Run(c, VersionsOf(input, k), Fresh(first))
    ensures first == (start && NothingBefore(Run(c, input, Fresh(start)), k))
  {
    hide Run;
    hide VersionsOf;
    hide Sorted;
    var a, g, b := SplitAtKey(input, k);
    assert input == a + (g + b);
    first := ThreePartsRun(c, a, g, b, k, start);
  }

  /** The same for records in three parts: smaller keys, the key, larger keys. */
  lemma ThreePartsRun(c: Config, a: seq<Record>, g: seq<Record>, b: seq<Record>, k: Key, start: bool)
    returns (first: bool)
    requires forall i | 0 <= i < |a| :: a[i].key < k
    requires forall i | 0 <= i < |g| :: g[i].key == k
    requires forall i | 0 <= i < |b| :: b[i].key > k
    ensures VersionsOf(Run(c, a + (g + b), Fresh(start)), k) == Run(c, g, Fresh(first))
    ensures first == (start && NothingBefore(Run(c, a + (g + b), Fresh(start)), k))
  {
    hide Run;
    hide VersionsOf;
    RunSplit(c, a, g + b, Fresh(start));
    var ra := Run(c, a, Fresh(start));
    first := start && ra == [];
    RunSplit(c, g, b, Fresh(first));
    var rg := Run(c, g, Fresh(first));
    var rb := Run(c, b, Fresh(first && rg == []));
    OnlyKey(c, a, Fresh(start), k);
    OnlyKey(c, b, Fresh(first && rg == []), k);
    HistoryKeys(c, g, Fresh(first), k);
    VersionsInside(Run(c, a + (g + b), Fresh(start)), ra, rg, rb, k);
    OutputBefore(c, a, Fresh(start), g + b, Fresh(first), k);
  }

  lemma VersionsInside(all: seq<Record>, a: seq<Record>, g: seq<Record>, b: seq<Record>, k: Key)
    requires all == a + (g + b) && VersionsOf(a, k) == [] && VersionsOf(g, k) == g && VersionsOf(b, k) == []
    ensures VersionsOf(all, k) == g
  {
    hide VersionsOf;
    VersionsOfConcat(a, g + b, k);
    VersionsOfConcat(g, b, k);
  }

  /** The output of smaller keys comes first, and shows. */
  lemma OutputBefore(c: Config, a: seq<Record>, st: State, b: seq<Record>, st': State, k: Key)
    requires ClearPending(a, st) && ClearPending(b, st')
    requires (forall i | 0 <= i < |a| :: a[i].key < k) && forall i | 0 <= i < |b| :: b[i].key >= k
    ensures NothingBefore(Run(c, a, st) + Run(c, b, st'), k) <==> Run(c, a, st) == []
  {
    hide Run;
    var ra, rb := Run(c, a, st), Run(c, b, st');
    if ra != [] {
      var i := OutputFromInput(c, a, st, 0);
      assert (ra + rb)[0] == ra[0];
    } else {
      forall o | 0 <= o < |rb| ensures rb[o].key >= k {
        var i := OutputFromInput(c, b, st', o);
      }
    }
  }

  lemma OnlyKey(c: Config, a: seq<Record>, st: State, k: Key)
    requires ClearPending(a, st)
    requires forall i | 0 <= i < |a| :: a[i].key != k
    ensures VersionsOf(Run(c, a, st), k) == []
  {
    hide Run;
    var out := Run(c, a, st);
    forall o | 0 <= o < |out| ensures out[o].key != k {
      var i := OutputFromInput(c, a, st, o);
    }
    VersionsOfNone(out, k);
  }

  lemma HistoryKeys(c: Config, g: seq<Record>, st: State, k: Key)
    requires ClearPending(g, st)
    requires forall i | 0 <= i < |g| :: g[i].key == k
    ensures VersionsOf(Run(c, g, st), k) == Run(c, g, st)
  {
    hide Run;
    var out := Run(c, g, st);
    forall o | 0 <= o < |out| ensures out[o].key == k {
      var i := OutputFromInput(c, g, st, o);
    }
    VersionsOfAll(out, k);
  }
}
