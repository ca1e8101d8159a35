/** The guards of the loop on their own: how many records of a key are output, and from when on the flag
    `has_outputted_key_` is set, without running the loop. */
module IteratorGuards {
  import opened Options
  import opened Records
  import opened Snapshots
  import opened IteratorSpec
  import opened IteratorGroups

  /** The test that a single delete makes on the next version of its key. */
  predicate Peeked(c: Config, r: Record, next: Record) {
    Previous(c.snapshots, r.seqno) == 0 || next.seqno > Previous(c.snapshots, r.seqno)
  }

  /** A tombstone that every read sees and that hides nothing. */
  predicate ObsoleteTombstone(c: Config, r: Record) {
    r.kind.Deletion? && c.BottomTombstone(r) && c.NotNeededForIncremental(r.seqno)
  }

  /** How many records of a key are output until at most `left` of `g` are left. Before `g` there were `n`, and `last`
      is the stripe of the record before, 0 for none. The flag is set once `enough` were output. */
  function Outputs(c: Config, g: seq<Record>, left: nat, last: nat, n: nat, enough: nat): nat
    decreases |g|
  {
    if |g| <= left then n
    else
      var r, stripe := g[0], c.StripeOf(g[0]);
      if !r.kind.SingleDeletion? then
        Outputs(c, g[1..], left, stripe, if stripe == last || ObsoleteTombstone(c, r) then n else n + 1, enough)
      else if |g| == 1 then
        if c.BottomTombstone(r) then n else n + 1
      else if !Peeked(c, r, g[1]) then
        Outputs(c, g[1..], left, stripe, n + 1, enough)
      else if g[1].kind.SingleDeletion? then
        Outputs(c, g[1..], left, stripe, n, enough)
      else if n >= enough || r.seqno <= c.writeConflict then
        Outputs(c, g[2..], left, stripe, n, enough)
      else
        Outputs(c, g[2..], left, c.StripeOf(g[1]), n + 2, enough)
  }

  /** The second record counts if the key may output the first record of all, otherwise the first. */
  function Enough(first: bool): nat {
    if first then 2 else 1
  }

  /** The stripe that the previous record of this key lay in, 0 if there was none. */
  function Last(st: State, k: Key): nat {
    st.Enter(k).snapshot
  }

  /** The state has the flags that follow from `n` records output. */
  predicate Counts(st: State, k: Key, n: nat, enough: nat) {
    && 1 <= enough <= 2 && !st.clear
    && st.first == (enough == 2 && n == 0) && st.Enter(k).outputted == (n >= enough)
  }

  ghost predicate AllOf(g: seq<Record>, k: Key) {
    forall i | 0 <= i < |g| :: g[i].key == k
  }

  /** A turn that keeps nothing back. */
  lemma TurnCounts(c: Config, g: seq<Record>, st: State, k: Key, left: nat, n: nat, enough: nat)
    requires AllOf(g, k) && |g| > left && Counts(st, k, n, enough) && !Step(c, g, st).state.clear
    ensures var t := Step(c, g, st);
            var m := if t.out.Some? then n + 1 else n;
            && 1 <= t.used <= 2 && t.used <= |g| && (t.used == 2 ==> g[0].kind.SingleDeletion? && Peeked(c, g[0], g[1]))
            && (t.used < |g| ==> Counts(t.state, k, m, enough) && Last(t.state, k) == c.StripeOf(g[0]))
            && Outputs(c, g, left, Last(st, k), n, enough) ==
               Outputs(c, g[t.used..], left, c.StripeOf(g[0]), m, enough)
  {
  }

  /** A turn that keeps the next record back, and the turn that outputs it. */
  lemma TurnsCount(c: Config, g: seq<Record>, st: State, k: Key, left: nat, n: nat, enough: nat)
    requires AllOf(g, k) && |g| > left && Counts(st, k, n, enough) && Step(c, g, st).state.clear
    ensures var t := Step(c, g, st);
            && |g| > 1 && t.used == 1 && t.out == Some(c.Prepare(g[0]))
            && g[0].kind.SingleDeletion? && Peeked(c, g[0], g[1]) && !g[1].kind.SingleDeletion?
            && var u := Step(c, g[1..], t.state);
            && u.used == 1 && u.out == Some(c.Prepare(g[1].(value := "")))
            && Counts(u.state, k, n + 2, enough) && Last(u.state, k) == c.StripeOf(g[1])
            && Outputs(c, g, left, Last(st, k), n, enough) == Outputs(c, g[2..], left, Last(u.state, k), n + 2, enough)
  {
    hide Config.Prepare;
    var t := Step(c, g, st);
    assert t.state.Enter(k) == t.state;
  }

  /** The run over a key outputs as many records as the guards say. */
  lemma {:induction false} RunCount(c: Config, g: seq<Record>, st: State, k: Key, last: nat, n: nat, enough: nat)
    requires AllOf(g, k) && (g != [] ==> Counts(st, k, n, enough) && last == Last(st, k))
    ensures |Run(c, g, st)| + n == Outputs(c, g, 0, last, n, enough)
    decreases |g|
  {
    hide Run, Step, Counts;
    if g == [] {
      RunEmpty(c, st);
    } else {
      var t := Step(c, g, st);
      RunOnce(c, g, st);
      if t.state.clear {
        TurnsCount(c, g, st, k, 0, n, enough);
        var u := Step(c, g[1..], t.state);
        RunOnce(c, g[1..], t.state);
        assert g[1..][1..] == g[2..];
        RunCount(c, g[2..], u.state, k, Last(u.state, k), n + 2, enough);
      } else {
        TurnCounts(c, g, st, k, 0, n, enough);
        RunCount(c, g[t.used..], t.state, k, c.StripeOf(g[0]), if t.out.Some? then n + 1 else n, enough);
      }
    }
  }

  lemma {:induction false} OutputsGrow(c: Config, g: seq<Record>, left: nat, last: nat, n: nat, enough: nat)
    ensures Outputs(c, g, left, last, n, enough) >= n
    decreases |g|
  {
    if |g| > left {
      var r, stripe := g[0], c.StripeOf(g[0]);
      if !r.kind.SingleDeletion? {
        OutputsGrow(c, g[1..], left, stripe, if stripe == last || ObsoleteTombstone(c, r) then n else n + 1, enough);
      } else if |g| > 1 {
        if !Peeked(c, r, g[1]) {
          OutputsGrow(c, g[1..], left, stripe, n + 1, enough);
        } else if g[1].kind.SingleDeletion? {
          OutputsGrow(c, g[1..], left, stripe, n, enough);
        } else if n >= enough || r.seqno <= c.writeConflict {
          OutputsGrow(c, g[2..], left, stripe, n, enough);
        } else {
          OutputsGrow(c, g[2..], left, c.StripeOf(g[1]), n + 2, enough);
        }
      }
    }
  }

  lemma OutputsNone(c: Config, g: seq<Record>, left: nat, last: nat, n: nat, enough: nat)
    requires |g| <= left
    ensures Outputs(c, g, left, last, n, enough) == n
  {
  }

  /** Until something is output it does not matter from when on the flag is set. */
  lemma {:induction false} NothingOutput(c: Config, g: seq<Record>, left: nat, last: nat)
    ensures Outputs(c, g, left, last, 0, 1) == 0 <==> Outputs(c, g, left, last, 0, 2) == 0
    decreases |g|
  {
    if |g| > left {
      var r, stripe := g[0], c.StripeOf(g[0]);
      if !r.kind.SingleDeletion? {
        NothingOutput(c, g[1..], left, stripe);
        OutputsGrow(c, g[1..], left, stripe, 1, 1);
        OutputsGrow(c, g[1..], left, stripe, 1, 2);
      } else if |g| > 1 {
        if !Peeked(c, r, g[1]) {
          OutputsGrow(c, g[1..], left, stripe, 1, 1);
          OutputsGrow(c, g[1..], left, stripe, 1, 2);
        } else if g[1].kind.SingleDeletion? {
          NothingOutput(c, g[1..], left, stripe);
        } else if r.seqno <= c.writeConflict {
          NothingOutput(c, g[2..], left, stripe);
        } else {
          OutputsGrow(c, g[2..], left, c.StripeOf(g[1]), 2, 1);
          OutputsGrow(c, g[2..], left, c.StripeOf(g[1]), 2, 2);
        }
      }
    }
  }

  /** Once the flag is set, it does not matter how many were output. */
  lemma {:induction false} OutputsShift(c: Config, g: seq<Record>, left: nat, last: nat, n: nat, e: nat, n': nat,
          e': nat)
    requires n >= e && n' >= e'
    ensures Outputs(c, g, left, last, n, e) - n == Outputs(c, g, left, last, n', e') - n'
    decreases |g|
  {
    if |g| > left {
      var r, stripe := g[0], c.StripeOf(g[0]);
      if !r.kind.SingleDeletion? {
        var more := if stripe == last || ObsoleteTombstone(c, r) then 0 else 1;
        OutputsShift(c, g[1..], left, stripe, n + more, e, n' + more, e');
      } else if |g| > 1 {
        if !Peeked(c, r, g[1]) {
          OutputsShift(c, g[1..], left, stripe, n + 1, e, n' + 1, e');
        } else if g[1].kind.SingleDeletion? {
          OutputsShift(c, g[1..], left, stripe, n, e, n', e');
        } else {
          OutputsShift(c, g[2..], left, stripe, n, e, n', e');
        }
      }
    }
  }

  // ---- The first key that outputs

  /** By the guards no key before `k` outputs anything. */
  ghost predicate Silent(c: Config, input: seq<Record>, k: Key) {
    forall i | 0 <= i < |input| && input[i].key < k :: Outputs(c, VersionsOf(input, input[i].key), 0, 0, 0, 1) == 0
  }

  /** How many records of `k` have to be output until the flag is set. */
  ghost function EnoughFor(c: Config, input: seq<Record>, k: Key): nat {
    Enough(Silent(c, input, k))
  }

  lemma {:induction false} LeastKey(out: seq<Record>, k: Key) returns (o: nat)
    requires !NothingBefore(out, k)
    ensures o < |out| && out[o].key < k && NothingBefore(out, out[o].key)
    decreases |out|
  {
    var rest := out[1..];
    if NothingBefore(rest, k) {
      o := 0;
      assert forall i | 0 < i < |out| :: out[i] == rest[i - 1];
    } else {
      var x := LeastKey(rest, k);
      o := if out[0].key < rest[x].key then 0 else x + 1;
      assert forall i | 0 < i < |out| :: out[i] == rest[i - 1];
    }
  }

  /** A key outputs nothing, as the first to do so, exactly if the guards say so. */
  lemma KeySilent(c: Config, input: seq<Record>, k: Key)
    requires Sorted(input) && NothingBefore(Compact(c, input), k)
    ensures VersionsOf(Compact(c, input), k) == [] <==> Outputs(c, VersionsOf(input, k), 0, 0, 0, 1) == 0
  {
    hide Run, VersionsOf, Outputs;
    var first := KeyRun(c, input, k);
    var _, g, _ := SplitAtKey(input, k);
    RunCount(c, g, Fresh(true), k, 0, 0, 2);
    NothingOutput(c, g, 0, 0);
  }

  /** The guards decide whether anything is output before a key. */
  lemma SilentIff(c: Config, input: seq<Record>, k: Key)
    requires Sorted(input)
    ensures NothingBefore(Compact(c, input), k) <==> Silent(c, input, k)
  {
    hide Run, VersionsOf, Outputs, Compact;
    var out := Compact(c, input);
    if NothingBefore(out, k) {
      forall i | 0 <= i < |input| && input[i].key < k
        ensures Outputs(c, VersionsOf(input, input[i].key), 0, 0, 0, 1) == 0
      {
        KeySilent(c, input, input[i].key);
        VersionsOfNone(out, input[i].key);
      }
    } else {
      var o := LeastKey(out, k);
      KeySilent(c, input, out[o].key);
      OutputKey(c, input, o);
    }
  }

  lemma OutputKey(c: Config, input: seq<Record>, o: nat)
    requires o < |Compact(c, input)|
    ensures exists i :: 0 <= i < |input| && input[i].key == Compact(c, input)[o].key
    ensures VersionsOf(Compact(c, input), Compact(c, input)[o].key) != []
  {
    hide Run;
    var i := OutputFromInput(c, input, Fresh(true), o);
    VersionsSome(Compact(c, input), o);
  }

  lemma {:induction false} VersionsSome(recs: seq<Record>, i: nat)
    requires i < |recs|
    ensures VersionsOf(recs, recs[i].key) != []
  {
    if i > 0 {
      VersionsSome(recs[1..], i - 1);
    }
  }
}
