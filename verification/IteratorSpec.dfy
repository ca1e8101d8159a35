/** The compaction iterator as a pure transformation of the rest of its input.

    `Step` treats the record at the head of the input as one turn of the loop in
    `NextFromInput` does; `Run` is the whole output. The class in CompactionIterator.dfy
    is proved to produce `Run`, and every other module reasons about `Run`. */
module IteratorSpec {
  import opened Options
  import opened Records
  import opened Snapshots
  import opened Compactions

  /** What an iterator is constructed with. No compaction means a flush. */
  datatype Config = Config(
    snapshots: seq<nat>,
    writeConflict: nat,
    compaction: Option<Compaction>,
    preserveSeqno: nat)
  {
    /** The earliest write-conflict snapshot is a live snapshot, or there is none. */
    ghost predicate Valid() {
      && Ascending(snapshots)
      && ReadPoint(snapshots, writeConflict)
      && (compaction.Some? ==> compaction.value.Valid())
    }

    /** `ikeyNotNeededForIncrementalSnapshot` */
    predicate NotNeededForIncremental(q: nat)
      requires compaction.Some?
    {
      !compaction.value.preserveDeletes || q < preserveSeqno
    }

    /** A tombstone of `r` can be dropped: every read sees it and nothing lies beneath. */
    predicate BottomTombstone(r: Record) {
      compaction.Some? && r.seqno <= Earliest(snapshots) && compaction.value.AbsentBeyond(r.key)
    }

    /** `PrepareOutput` squashes the sequence number of `r` to zero. */
    predicate Zeroes(r: Record) {
      && compaction.Some?
      && !compaction.value.allowIngestBehind
      && NotNeededForIncremental(r.seqno)
      && compaction.value.bottommost
      && r.seqno <= Earliest(snapshots)
      && compaction.value.largestUserKey != r.key
    }

    function Prepare(r: Record): Record {
      if Zeroes(r) then r.(seqno := 0) else r
    }

    function StripeOf(r: Record): nat {
      Stripe(snapshots, r.seqno)
    }
  }

  /** The state carried from one record to the next. `first` holds until a record is
      output: the output found by `SeekToFirst` does not set `has_outputted_key_`. */
  datatype State = State(hasKey: bool, key: Key, snapshot: nat, outputted: bool, clear: bool, first: bool)
  {
    /** The state for the first occurrence of a user key. */
    function Enter(k: Key): State {
      if hasKey && key == k then this
      else this.(hasKey := true, key := k, snapshot := 0, outputted := false)
    }
  }

  function Fresh(first: bool): State {
    State(false, 0, 0, false, false, first)
  }

  /** Records used up, the record output (if any), and the state left behind. */
  datatype Turn = Turn(used: nat, out: Option<Record>, state: State)

  function Emit(c: Config, r: Record, st: State): Turn {
    Turn(1, Some(c.Prepare(r)), st.(outputted := st.outputted || !st.first, first := false))
  }

  /** The single-delete branch: peek at the next record. */
  function SingleDeleteTurn(c: Config, rest: seq<Record>, st: State): Turn
    requires rest != []
  {
    var r := rest[0];
    var previous := Previous(c.snapshots, r.seqno);
    if |rest| > 1 && rest[1].key == r.key then
      if previous == 0 || rest[1].seqno > previous then
        if rest[1].kind.SingleDeletion? then Turn(1, None, st)
        else if st.outputted || r.seqno <= c.writeConflict then Turn(2, None, st)
        else Emit(c, r, st.(clear := true))
      else Emit(c, r, st)
    else if c.BottomTombstone(r) then Turn(1, None, st.(hasKey := false))
    else Emit(c, r, st.(hasKey := false))
  }

  /** A put or a deletion; `last` is the stripe of the newer record of the same key. */
  function PlainTurn(c: Config, r: Record, last: nat, st: State): Turn {
    if last == st.snapshot then Turn(1, None, st)
    else if r.kind.Deletion? && c.BottomTombstone(r) && c.NotNeededForIncremental(r.seqno) then Turn(1, None, st)
    else Emit(c, r, st)
  }

  function Step(c: Config, rest: seq<Record>, st: State): Turn
    requires rest != []
  {
    var r := rest[0];
    var st0 := st.Enter(r.key);
    var st1 := st0.(snapshot := c.StripeOf(r));
    if st0.clear then Emit(c, r.(value := ""), st1.(clear := false))
    else if r.kind.SingleDeletion? then SingleDeleteTurn(c, rest, st1)
    else PlainTurn(c, r, st0.snapshot, st1)
  }

  function Run(c: Config, rest: seq<Record>, st: State): seq<Record>
    decreases |rest|
  {
    if rest == [] then []
    else
      var t := Step(c, rest, st);
      (if t.out.Some? then [t.out.value] else []) + Run(c, rest[t.used..], t.state)
  }

  /** The whole output of one compaction. */
  function Compact(c: Config, input: seq<Record>): seq<Record> {
    Run(c, input, Fresh(true))
  }
}
