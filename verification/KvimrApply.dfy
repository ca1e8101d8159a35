/** Applying all pending updates of an SSTable: both modes leave the same device, and only the merged
    mode writes each TOP track once. */
module KvimrApply {
  import opened Extrema
  import opened KvimrTracks
  import opened KvimrPayload
  import opened KvimrRmw

  /** Updates follow each other without a gap, from file offset `p` to the end of the data. */
  ghost predicate Contiguous(updates: seq<Update>, data: Bytes, p: nat) {
    if updates == [] then p == |data|
    else
      var u := updates[0];
      && u.offset == p && u.data != [] && u.End() <= |data| && u.data == data[p..u.End()]
      && Contiguous(updates[1..], data, u.End())
  }

  // ---- What the tracks hold half way

  /** File bytes `p` to `e` are in the tracks before `i`, and `p` to `a` in the others. */
  ghost predicate Progress(was: Bytes, dev: Bytes, tracks: seq<Segment>, buffers: Buffers, data: Bytes, p: nat, i: nat,
          a: nat, e: nat)
    requires TracksOk(tracks, |dev|) && |was| == |dev| && a <= |data| && e <= |data|
  {
    forall j | 0 <= j < |tracks| ::
      Content(dev, tracks, buffers, j) == Wanted(was, tracks, data, j, p, if j < i then e else a)
  }

  /** TOP tracks that hold some of file bytes `p` to `e` (before track `i`) or `p` to `a` (from it on). */
  ghost function TopTracks(tracks: seq<Segment>, p: nat, i: nat, a: nat, e: nat): set<nat> {
    set j | 0 <= j < |tracks| && tracks[j].typ.Top? && Overlaps(tracks, j, p, if j < i then e else a)
  }

  ghost predicate Outside(was: Bytes, dev: Bytes, tracks: seq<Segment>) {
    |was| == |dev| && forall x | 0 <= x < |dev| && !InTracks(tracks, x) :: dev[x] == was[x]
  }

  lemma OverlapSplit(tracks: seq<Segment>, j: nat, p: nat, a: nat, e: nat)
    requires j < |tracks| && p <= a <= e
    ensures Overlaps(tracks, j, p, e) <==> Overlaps(tracks, j, p, a) || Overlaps(tracks, j, a, e)
  {
    hide StartOf;
  }

  lemma ProgressTouch(was: Bytes, dev: Bytes, dev': Bytes, tracks: seq<Segment>, buffers: Buffers, buffers': Buffers,
          data: Bytes, p: nat, i: nat, a: nat, e: nat)
    requires TracksOk(tracks, |dev|) && |was| == |dev| && i < |tracks| && a <= e <= |data|
    requires Progress(was, dev, tracks, buffers, data, p, i, a, e)
    requires OnlyTrack(dev, dev', tracks[i])
    requires Content(dev', tracks, buffers', i) == Wanted(was, tracks, data, i, p, e)
    requires buffers' == buffers || (i in buffers' && buffers' == buffers[i := buffers'[i]])
    ensures Progress(was, dev', tracks, buffers', data, p, i + 1, a, e)
  {
    hide Wanted, TrackBytes, StartOf;
    forall j | 0 <= j < |tracks|
      ensures Content(dev', tracks, buffers', j) == Wanted(was, tracks, data, j, p, if j < i + 1 then e else a)
    {
      if j != i {
        OtherTrack(dev, dev', tracks[i], tracks[j]);
        assert Content(dev, tracks, buffers, j) == Wanted(was, tracks, data, j, p, if j < i then e else a);
      }
    }
  }

  lemma ProgressPass(was: Bytes, dev: Bytes, tracks: seq<Segment>, buffers: Buffers, data: Bytes, p: nat, i: nat,
          a: nat, e: nat)
    requires TracksOk(tracks, |dev|) && |was| == |dev| && i < |tracks| && p <= a <= e <= |data|
    requires Progress(was, dev, tracks, buffers, data, p, i, a, e)
    requires !Overlaps(tracks, i, a, e)
    ensures Progress(was, dev, tracks, buffers, data, p, i + 1, a, e)
  {
    AfterNoOverlap(tracks[i].typ, TrackBytes(was, tracks[i]), StartOf(tracks, i), data, p, a, e);
    hide StartOf, After, TrackBytes;
    forall j | 0 <= j < |tracks|
      ensures Content(dev, tracks, buffers, j) == Wanted(was, tracks, data, j, p, if j < i + 1 then e else a)
    {
      assert Content(dev, tracks, buffers, j) == Wanted(was, tracks, data, j, p, if j < i then e else a);
    }
  }

  lemma TopTracksStep(tracks: seq<Segment>, p: nat, i: nat, a: nat, e: nat)
    requires i < |tracks| && p <= a <= e
    ensures TopTracks(tracks, p, i + 1, a, e) ==
            TopTracks(tracks, p, i, a, e) + (if tracks[i].typ.Top? && Overlaps(tracks, i, a, e) then {i} else {})
  {
    OverlapSplit(tracks, i, p, a, e);
  }

  // ---- Counters

  /** TOP tracks among the first `n` that file bytes `a` to `e` touch. */
  function Touches(tracks: seq<Segment>, a: nat, e: nat, n: nat): nat
    requires n <= |tracks|
  {
    if n == 0 then 0
    else Touches(tracks, a, e, n - 1) + (if tracks[n - 1].typ.Top? && Overlaps(tracks, n - 1, a, e) then 1 else 0)
  }

  /** Bytes of whole sectors of BOTTOM tracks among the first `n` that they touch. */
  function Direct(tracks: seq<Segment>, a: nat, e: nat, n: nat): nat
    requires n <= |tracks|
  {
    if n == 0 then 0
    else
      Direct(tracks, a, e, n - 1) +
      if tracks[n - 1].typ.Bottom? && Overlaps(tracks, n - 1, a, e)
      then SectorSpan(StartOf(tracks, n - 1), tracks[n - 1].Capacity(), a, e) else 0
  }

  function TotalTouches(tracks: seq<Segment>, updates: seq<Update>): nat {
    if updates == [] then 0
    else Touches(tracks, updates[0].offset, updates[0].End(), |tracks|) + TotalTouches(tracks, updates[1..])
  }

  function TotalDirect(tracks: seq<Segment>, updates: seq<Update>): nat {
    if updates == [] then 0
    else Direct(tracks, updates[0].offset, updates[0].End(), |tracks|) + TotalDirect(tracks, updates[1..])
  }

  /** Counters after `touches` updates of TOP tracks that loaded `loads` buffers, before the flush. */
  function Tally(mode: Mode, c: Counters, touches: nat, loads: nat, direct: nat): Counters
    requires mode.Merged? ==> loads <= touches
  {
    var d := c.(direct := c.direct + direct);
    if mode.Naive? then
      d.(naiveRmw := c.naiveRmw + touches, naiveRead := c.naiveRead + touches * SegmentBytes(Top),
         naiveWrite := c.naiveWrite + touches * SegmentBytes(Top))
    else
      d.(logical := c.logical + touches, created := c.created + loads,
         mergedRead := c.mergedRead + loads * SegmentBytes(Top),
         saved := c.saved + (touches - loads), hits := c.hits + (touches - loads))
  }

  lemma TallyTouch(mode: Mode, c0: Counters, c: Counters, touches: nat, loads: nat, direct: nat, tracks: seq<Segment>,
          i: nat, a: nat, e: nat, loaded: bool)
    requires mode.Merged? ==> loads <= touches
    requires i < |tracks| && Overlaps(tracks, i, a, e) && c == Tally(mode, c0, touches, loads, direct)
    ensures CountTouch(mode, c, tracks, i, a, e, loaded) ==
            if tracks[i].typ.Top?
            then Tally(mode, c0, touches + 1, if loaded then loads else loads + 1, direct)
            else Tally(mode, c0, touches, loads, direct + SectorSpan(StartOf(tracks, i), tracks[i].Capacity(), a, e))
  {
    hide SectorSpan, StartOf;
  }

  /** Tracks past the end of an update are not touched. */
  lemma PastTheEnd(tracks: seq<Segment>, a: nat, e: nat, i: nat, n: nat)
    requires i <= n <= |tracks| && StartOf(tracks, i) >= e
    ensures Touches(tracks, a, e, n) == Touches(tracks, a, e, i) && Direct(tracks, a, e, n) == Direct(tracks, a, e, i)
    ensures StartOf(tracks, n) >= e
  {
    if i < n {
      PastTheEnd(tracks, a, e, i, n - 1);
    }
  }

  lemma PastAll(was: Bytes, dev: Bytes, tracks: seq<Segment>, buffers: Buffers, data: Bytes, p: nat, i: nat, a: nat,
          e: nat)
    requires TracksOk(tracks, |dev|) && |was| == |dev| && i <= |tracks| && p <= a <= e <= |data|
    requires Progress(was, dev, tracks, buffers, data, p, i, a, e) && StartOf(tracks, i) >= e
    ensures Progress(was, dev, tracks, buffers, data, p, |tracks|, a, e)
    ensures TopTracks(tracks, p, |tracks|, a, e) == TopTracks(tracks, p, i, a, e)
    decreases |tracks| - i
  {
    hide Progress, TopTracks, TracksOk;
    if i < |tracks| {
      ProgressPass(was, dev, tracks, buffers, data, p, i, a, e);
      TopTracksStep(tracks, p, i, a, e);
      PastAll(was, dev, tracks, buffers, data, p, i + 1, a, e);
    }
  }

  // ---- The loops

  /** The state of the apply loops at file offset `q`: every byte before `q` is in the tracks or their buffers. */
  ghost predicate Reached(mode: Mode, was: Bytes, dev: Bytes, tracks: seq<Segment>, buffers: Buffers, data: Bytes,
          p: nat, i: nat, a: nat, e: nat) {
    && |was| == |dev| && TracksOk(tracks, |dev|) && p <= a <= e <= |data|
    && Progress(was, dev, tracks, buffers, data, p, i, a, e)
    && Outside(was, dev, tracks)
    && buffers.Keys == if mode.Naive? then {} else TopTracks(tracks, p, i, a, e)
  }

  lemma ReachedTouch(mode: Mode, was: Bytes, dev: Bytes, dev': Bytes, tracks: seq<Segment>, buffers: Buffers,
          buffers': Buffers, data: Bytes, p: nat, i: nat, a: nat, e: nat)
    requires Reached(mode, was, dev, tracks, buffers, data, p, i, a, e) && i < |tracks| && Overlaps(tracks, i, a, e)
    requires OnlyTrack(dev, dev', tracks[i])
    requires Content(dev', tracks, buffers', i) == Wanted(was, tracks, data, i, p, e)
    requires if tracks[i].typ.Top? && mode.Merged?
             then dev' == dev && i in buffers' && buffers' == buffers[i := buffers'[i]]
             else buffers' == buffers
    ensures Reached(mode, was, dev', tracks, buffers', data, p, i + 1, a, e)
  {
    hide TopTracks, Content, Wanted, Progress, Overlaps;
    ProgressTouch(was, dev, dev', tracks, buffers, buffers', data, p, i, a, e);
    TopTracksStep(tracks, p, i, a, e);
    forall x | 0 <= x < |dev| && !InTracks(tracks, x) ensures dev'[x] == was[x] {
      assert !InTrack(tracks[i], x);
    }
  }

  /** The counters after `touches` and the touches of this update among its first `i` tracks. */
  ghost predicate Counted(mode: Mode, c0: Counters, c: Counters, tracks: seq<Segment>, a: nat, e: nat, i: nat,
          buffers: Buffers, touches: nat, direct: nat)
    requires i <= |tracks|
  {
    && |buffers| <= touches + Touches(tracks, a, e, i)
    && c == Tally(mode, c0, touches + Touches(tracks, a, e, i), |buffers|, direct + Direct(tracks, a, e, i))
  }

  lemma CountedTouch(mode: Mode, c0: Counters, c: Counters, tracks: seq<Segment>, a: nat, e: nat, i: nat,
          buffers: Buffers, buffers': Buffers, touches: nat, direct: nat)
    requires i < |tracks| && Counted(mode, c0, c, tracks, a, e, i, buffers, touches, direct)
    requires Overlaps(tracks, i, a, e)
    requires mode.Naive? ==> buffers == map[]
    requires if tracks[i].typ.Top? && mode.Merged? then i in buffers' && buffers' == buffers[i := buffers'[i]]
             else buffers' == buffers
    ensures Counted(mode, c0, CountTouch(mode, c, tracks, i, a, e, i in buffers), tracks, a, e, i + 1,
                    buffers', touches, direct)
  {
    hide Overlaps, StartOf, SectorSpan;
    TallyTouch(mode, c0, c, touches + Touches(tracks, a, e, i), |buffers|,
               direct + Direct(tracks, a, e, i), tracks, i, a, e, i in buffers);
    assert i !in buffers && i in buffers' ==> |buffers'| == |buffers| + 1;
    hide CountTouch;
    assert Touches(tracks, a, e, i + 1) == Touches(tracks, a, e, i) + (if tracks[i].typ.Top? then 1 else 0);
  }

  /** One round of the inner loop. */
  method VisitTrack(mode: Mode, dev: Bytes, buffers: Buffers, c: Counters, tracks: seq<Segment>, i: nat, start: nat,
          u: Update, data: Bytes, ghost was: Bytes, ghost p: nat, ghost c0: Counters, ghost touches: nat,
          ghost direct: nat)
    returns (dev': Bytes, buffers': Buffers, c': Counters)
    requires i < |tracks| && start == StartOf(tracks, i) && u.End() <= |data| && u.data == data[u.offset..u.End()]
    requires Reached(mode, was, dev, tracks, buffers, data, p, i, u.offset, u.End())
    requires Counted(mode, c0, c, tracks, u.offset, u.End(), i, buffers, touches, direct)
    ensures Reached(mode, was, dev', tracks, buffers', data, p, i + 1, u.offset, u.End())
    ensures Counted(mode, c0, c', tracks, u.offset, u.End(), i + 1, buffers', touches, direct)
  {
    hide StartOf, Counted, CountTouch;
    var a, e := u.offset, u.End();
    dev', buffers', c' := dev, buffers, c;
    if Max(a, start) < Min(e, start + tracks[i].Capacity()) {
      TouchReady(mode, was, dev, tracks, buffers, data, p, i, a, e);
      hide Reached, TracksOk, Content, Wanted;
      dev', buffers', c' := TouchTrack(mode, dev, buffers, c, tracks, i, start, u, data, was, p);
      ReachedTouch(mode, was, dev, dev', tracks, buffers, buffers', data, p, i, a, e);
      CountedTouch(mode, c0, c, tracks, a, e, i, buffers, buffers', touches, direct);
    } else {
      ReachedPass(mode, was, dev, tracks, buffers, data, p, i, a, e);
      CountedPass(mode, c0, c, tracks, a, e, i, buffers, touches, direct);
    }
  }

  lemma CountedPass(mode: Mode, c0: Counters, c: Counters, tracks: seq<Segment>, a: nat, e: nat, i: nat,
          buffers: Buffers, touches: nat, direct: nat)
    requires i < |tracks| && Counted(mode, c0, c, tracks, a, e, i, buffers, touches, direct)
    requires !Overlaps(tracks, i, a, e)
    ensures Counted(mode, c0, c, tracks, a, e, i + 1, buffers, touches, direct)
  {
  }

  /** The inner loop: one update goes to every track it overlaps. */
  method ApplyUpdate(mode: Mode, dev: Bytes, buffers: Buffers, c: Counters, tracks: seq<Segment>, u: Update,
          data: Bytes, ghost was: Bytes, ghost p: nat, ghost c0: Counters, ghost touches: nat, ghost direct: nat)
    returns (dev': Bytes, buffers': Buffers, c': Counters)
    requires u.End() <= |data| && u.data == data[u.offset..u.End()]
    requires Reached(mode, was, dev, tracks, buffers, data, p, 0, u.offset, u.End())
    requires Counted(mode, c0, c, tracks, u.offset, u.End(), 0, buffers, touches, direct)
    ensures Reached(mode, was, dev', tracks, buffers', data, p, |tracks|, u.offset, u.End())
    ensures Counted(mode, c0, c', tracks, u.offset, u.End(), |tracks|, buffers', touches, direct)
  {
    hide Reached, Tally;
    var a, e := u.offset, u.End();
    dev', buffers', c' := dev, buffers, c;
    var i, start := 0, 0;
    while i < |tracks|
      invariant i <= |tracks| && start == StartOf(tracks, i)
      invariant Reached(mode, was, dev', tracks, buffers', data, p, i, a, e)
      invariant Counted(mode, c0, c', tracks, a, e, i, buffers', touches, direct)
    {
      dev', buffers', c' := VisitTrack(mode, dev', buffers', c', tracks, i, start, u, data, was, p, c0, touches,
        direct);
      start := start + tracks[i].Capacity();
      i := i + 1;
      if start >= e {
        ReachedEnd(mode, was, dev', tracks, buffers', data, p, i, a, e);
        PastTheEnd(tracks, a, e, i, |tracks|);
        break;
      }
    }
  }

  lemma TouchReady(mode: Mode, was: Bytes, dev: Bytes, tracks: seq<Segment>, buffers: Buffers, data: Bytes, p: nat,
          i: nat, a: nat, e: nat)
    requires Reached(mode, was, dev, tracks, buffers, data, p, i, a, e) && i < |tracks|
    ensures TracksOk(tracks, |dev|) && Content(dev, tracks, buffers, i) == Wanted(was, tracks, data, i, p, a)
    ensures i in buffers ==> mode.Merged? && tracks[i].typ.Top?
    ensures mode.Naive? ==> buffers == map[]
    ensures p <= a <= e <= |data| && |was| == |dev|
  {
  }

  lemma ReachedPass(mode: Mode, was: Bytes, dev: Bytes, tracks: seq<Segment>, buffers: Buffers, data: Bytes, p: nat,
          i: nat, a: nat, e: nat)
    requires Reached(mode, was, dev, tracks, buffers, data, p, i, a, e) && i < |tracks| && !Overlaps(tracks, i, a, e)
    ensures Reached(mode, was, dev, tracks, buffers, data, p, i + 1, a, e)
  {
    hide Progress, TopTracks;
    ProgressPass(was, dev, tracks, buffers, data, p, i, a, e);
    TopTracksStep(tracks, p, i, a, e);
  }

  lemma ReachedEnd(mode: Mode, was: Bytes, dev: Bytes, tracks: seq<Segment>, buffers: Buffers, data: Bytes, p: nat,
          i: nat, a: nat, e: nat)
    requires Reached(mode, was, dev, tracks, buffers, data, p, i, a, e) && i <= |tracks| && StartOf(tracks, i) >= e
    ensures Reached(mode, was, dev, tracks, buffers, data, p, |tracks|, a, e)
  {
    hide Progress, TopTracks;
    PastAll(was, dev, tracks, buffers, data, p, i, a, e);
  }
}
