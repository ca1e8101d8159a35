/** Persisting an SSTable's payload and reading it back. */
module KvimrPersist {
  import opened Options
  import opened Extrema
  import opened KvimrTracks
  import opened KvimrPayload
  import opened KvimrRmw
  import opened KvimrApply

  /** What applying file bytes from `p` on does to the device: each track becomes what it must hold, and
      no other byte changes. */
  ghost predicate Written(was: Bytes, dev: Bytes, tracks: seq<Segment>, data: Bytes, p: nat)
    requires TracksOk(tracks, |was|)
  {
    && Outside(was, dev, tracks)
    && forall j | 0 <= j < |tracks| :: TrackBytes(dev, tracks[j]) == Wanted(was, tracks, data, j, p, |data|)
  }

  /** The device afterwards is determined: it does not depend on the mode, nor on how the bytes were split into
      updates. */
  lemma WrittenOnce(was: Bytes, dev: Bytes, dev': Bytes, tracks: seq<Segment>, data: Bytes, p: nat)
    requires TracksOk(tracks, |was|) && Written(was, dev, tracks, data, p) && Written(was, dev', tracks, data, p)
    ensures dev == dev'
  {
    hide Wanted, TrackBytes, InTrack, SegmentAt;
    forall x: nat | x < |was| ensures dev[x] == dev'[x] {
      if InTracks(tracks, x) {
        var i :| 0 <= i < |tracks| && InTrack(tracks[i], x);
        SameInTrack(dev, dev', tracks[i], x);
      }
    }
  }

  lemma SameInTrack(dev: Bytes, dev': Bytes, s: Segment, x: nat)
    requires |dev| == |dev'| && s.Base() + s.Capacity() <= |dev| && TrackBytes(dev, s) == TrackBytes(dev', s)
    requires InTrack(s, x)
    ensures dev[x] == dev'[x]
  {
    var l := x - s.Base();
    assert TrackBytes(dev, s)[l] == dev[x] && TrackBytes(dev', s)[l] == dev'[x];
  }

  // ---- The outer loop

  lemma Widen(mode: Mode, was: Bytes, dev: Bytes, tracks: seq<Segment>, buffers: Buffers, data: Bytes, p: nat, q: nat,
          e: nat)
    requires Reached(mode, was, dev, tracks, buffers, data, p, 0, q, q) && q <= e <= |data|
    ensures Reached(mode, was, dev, tracks, buffers, data, p, 0, q, e)
  {
    assert TopTracks(tracks, p, 0, q, q) == TopTracks(tracks, p, 0, q, e);
    hide TopTracks, Content, Wanted;
  }

  lemma Close(mode: Mode, was: Bytes, dev: Bytes, tracks: seq<Segment>, buffers: Buffers, data: Bytes, p: nat, a: nat,
          e: nat)
    requires Reached(mode, was, dev, tracks, buffers, data, p, |tracks|, a, e)
    ensures Reached(mode, was, dev, tracks, buffers, data, p, 0, e, e)
  {
    assert TopTracks(tracks, p, |tracks|, a, e) == TopTracks(tracks, p, 0, e, e);
    hide TopTracks, Content, Wanted;
  }

  lemma NothingReached(mode: Mode, dev: Bytes, tracks: seq<Segment>, data: Bytes, p: nat)
    requires TracksOk(tracks, |dev|) && p <= |data|
    ensures Reached(mode, dev, dev, tracks, map[], data, p, 0, p, p)
  {
    hide StartOf, TrackBytes, After;
    forall j | 0 <= j < |tracks| ensures Content(dev, tracks, map[], j) == Wanted(dev, tracks, data, j, p, p) {
      AfterNothing(tracks[j].typ, TrackBytes(dev, tracks[j]), StartOf(tracks, j), data, p);
    }
    assert forall j | 0 <= j < |tracks| :: !Overlaps(tracks, j, p, p);
    assert TopTracks(tracks, p, 0, p, p) == {};
  }

  lemma ContiguousEnds(updates: seq<Update>, data: Bytes, p: nat)
    requires Contiguous(updates, data, p)
    ensures p <= |data|
  {
  }

  /** The outer loop: all updates in the order they were made. */
  method ApplyAll(mode: Mode, dev: Bytes, c: Counters, tracks: seq<Segment>, updates: seq<Update>, data: Bytes,
          ghost p: nat)
    returns (dev': Bytes, buffers: Buffers, c': Counters)
    requires TracksOk(tracks, |dev|) && Contiguous(updates, data, p)
    ensures Reached(mode, dev, dev', tracks, buffers, data, p, 0, |data|, |data|)
    ensures |buffers| <= TotalTouches(tracks, updates)
    ensures c' == Tally(mode, c, TotalTouches(tracks, updates), |buffers|, TotalDirect(tracks, updates))
  {
    hide Reached, TracksOk, Touches, Direct;
    ContiguousEnds(updates, data, p);
    NothingReached(mode, dev, tracks, data, p);
    dev', buffers, c' := dev, map[], c;
    var k := 0;
    ghost var q: nat, touches: nat, direct: nat := p, 0, 0;
    assert updates[0..] == updates;
    while k < |updates|
      invariant k <= |updates| && q <= |data| && Contiguous(updates[k..], data, q)
      invariant Reached(mode, dev, dev', tracks, buffers, data, p, 0, q, q)
      invariant touches + TotalTouches(tracks, updates[k..]) == TotalTouches(tracks, updates)
      invariant direct + TotalDirect(tracks, updates[k..]) == TotalDirect(tracks, updates)
      invariant |buffers| <= touches && c' == Tally(mode, c, touches, |buffers|, direct)
    {
      var u := updates[k];
      assert updates[k..][0] == u && updates[k..][1..] == updates[k + 1..];
      Widen(mode, dev, dev', tracks, buffers, data, p, q, u.End());
      CountedStart(mode, c, c', tracks, q, u.End(), buffers, touches, direct);
      dev', buffers, c' := ApplyUpdate(mode, dev', buffers, c', tracks, u, data, dev, p, c, touches, direct);
      Close(mode, dev, dev', tracks, buffers, data, p, q, u.End());
      touches, direct := touches + Touches(tracks, q, u.End(), |tracks|), direct + Direct(tracks, q, u.End(), |tracks|);
      q, k := u.End(), k + 1;
    }
  }

  lemma CountedStart(mode: Mode, c0: Counters, c: Counters, tracks: seq<Segment>, a: nat, e: nat, buffers: Buffers,
          touches: nat, direct: nat)
    requires |buffers| <= touches && c == Tally(mode, c0, touches, |buffers|, direct)
    ensures Counted(mode, c0, c, tracks, a, e, 0, buffers, touches, direct)
  {
  }

  // ---- The flush

  /** Buffers of tracks before `k` are on the device. */
  ghost predicate FlushedTo(was: Bytes, dev: Bytes, tracks: seq<Segment>, buffers: Buffers, data: Bytes, p: nat, k: nat)
    requires TracksOk(tracks, |was|)
  {
    && Outside(was, dev, tracks)
    && forall j | 0 <= j < |tracks| ::
         (if j >= k && j in buffers then buffers[j] else TrackBytes(dev, tracks[j])) ==
           Wanted(was, tracks, data, j, p, |data|)
  }

  function FlushTally(c: Counters, n: nat): Counters {
    c.(mergedRmw := c.mergedRmw + n, mergedWrite := c.mergedWrite + n * SegmentBytes(Top), flushed := c.flushed + n)
  }

  /** Buffers below `k`. */
  ghost function Below(buffers: Buffers, k: nat): set<nat> {
    set j | j in buffers && j < k
  }

  lemma FlushOne(was: Bytes, dev: Bytes, tracks: seq<Segment>, buffers: Buffers, data: Bytes, p: nat, k: nat)
    requires TracksOk(tracks, |was|) && FlushedTo(was, dev, tracks, buffers, data, p, k) && k < |tracks| && k in buffers
    ensures |buffers[k]| == tracks[k].Capacity() && tracks[k].Base() + |buffers[k]| <= |dev|
    ensures FlushedTo(was, Patch(dev, tracks[k].Base(), buffers[k]), tracks, buffers, data, p, k + 1)
  {
    hide Patch, StartOf;
    assert buffers[k] == Wanted(was, tracks, data, k, p, |data|);
    assert |buffers[k]| == tracks[k].Capacity();
    hide Wanted;
    var dev' := Patch(dev, tracks[k].Base(), buffers[k]);
    WriteInside(dev, tracks[k], 0, buffers[k]);
    WholePatch(TrackBytes(dev, tracks[k]), buffers[k]);
    hide TrackBytes;
    forall j | 0 <= j < |tracks|
      ensures (if j >= k + 1 && j in buffers then buffers[j] else TrackBytes(dev', tracks[j])) ==
              Wanted(was, tracks, data, j, p, |data|)
    {
      if j != k {
        OtherTrack(dev, dev', tracks[k], tracks[j]);
      }
    }
    forall x | 0 <= x < |dev| && !InTracks(tracks, x) ensures dev'[x] == was[x] {
      assert !InTrack(tracks[k], x);
    }
  }

  lemma WholePatch(t: Bytes, b: Bytes)
    requires |t| == |b|
    ensures Patch(t, 0, b) == b
  {
  }

  method FlushMergedBuffers(dev: Bytes, c: Counters, tracks: seq<Segment>, buffers: Buffers, ghost was: Bytes,
          ghost data: Bytes, ghost p: nat)
    returns (dev': Bytes, c': Counters)
    requires Reached(Merged, was, dev, tracks, buffers, data, p, 0, |data|, |data|)
    ensures TracksOk(tracks, |was|) && Written(was, dev', tracks, data, p)
    ensures c' == FlushTally(c, |buffers|)
  {
    hide FlushedTo, Reached, Patch;
    FlushStart(was, dev, tracks, buffers, data, p);
    dev', c' := dev, c;
    var k := 0;
    while k < |tracks|
      invariant k <= |tracks| && FlushedTo(was, dev', tracks, buffers, data, p, k)
      invariant c' == FlushTally(c, |Below(buffers, k)|)
    {
      BelowNext(buffers, k);
      if k in buffers {
        FlushOne(was, dev', tracks, buffers, data, p, k);
        BufferIsTop(Merged, was, dev, tracks, buffers, data, p, k);
        dev' := Patch(dev', tracks[k].Base(), buffers[k]);
        c' := c'.(mergedRmw := c'.mergedRmw + 1, mergedWrite := c'.mergedWrite + |buffers[k]|,
                  flushed := c'.flushed + 1);
      } else {
        FlushNone(was, dev', tracks, buffers, data, p, k);
      }
      k := k + 1;
    }
    FlushEnd(was, dev', tracks, buffers, data, p);
  }

  lemma BelowNext(buffers: Buffers, k: nat)
    ensures |Below(buffers, k + 1)| == |Below(buffers, k)| + (if k in buffers then 1 else 0)
  {
    assert Below(buffers, k + 1) == Below(buffers, k) + (if k in buffers then {k} else {});
  }

  lemma FlushStart(was: Bytes, dev: Bytes, tracks: seq<Segment>, buffers: Buffers, data: Bytes, p: nat)
    requires Reached(Merged, was, dev, tracks, buffers, data, p, 0, |data|, |data|)
    ensures TracksOk(tracks, |was|) && FlushedTo(was, dev, tracks, buffers, data, p, 0)
    ensures Below(buffers, 0) == {} && Below(buffers, |tracks|) == buffers.Keys
  {
    hide StartOf, Wanted, TrackBytes;
    forall j | 0 <= j < |tracks|
      ensures (if j >= 0 && j in buffers then buffers[j] else TrackBytes(dev, tracks[j])) ==
              Wanted(was, tracks, data, j, p, |data|)
    {
      assert Content(dev, tracks, buffers, j) == Wanted(was, tracks, data, j, p, |data|);
    }
    forall k | k in buffers ensures k < |tracks| {
      assert k in buffers.Keys;
    }
  }

  lemma FlushNone(was: Bytes, dev: Bytes, tracks: seq<Segment>, buffers: Buffers, data: Bytes, p: nat, k: nat)
    requires TracksOk(tracks, |was|) && FlushedTo(was, dev, tracks, buffers, data, p, k) && k !in buffers
    ensures FlushedTo(was, dev, tracks, buffers, data, p, k + 1)
  {
    hide StartOf, Wanted, TrackBytes;
  }

  lemma FlushEnd(was: Bytes, dev: Bytes, tracks: seq<Segment>, buffers: Buffers, data: Bytes, p: nat)
    requires TracksOk(tracks, |was|) && FlushedTo(was, dev, tracks, buffers, data, p, |tracks|)
    ensures Written(was, dev, tracks, data, p)
  {
    hide StartOf, Wanted, TrackBytes;
  }

  lemma BufferIsTop(mode: Mode, was: Bytes, dev: Bytes, tracks: seq<Segment>, buffers: Buffers, data: Bytes, p: nat,
          k: nat)
    requires Reached(mode, was, dev, tracks, buffers, data, p, 0, |data|, |data|) && k in buffers
    ensures k < |tracks| && tracks[k].typ.Top? && tracks[k].Capacity() == SegmentBytes(Top)
  {
    hide StartOf, Progress;
    assert k in buffers.Keys;
    ValidCapacity(tracks[k]);
  }

  // ---- All of it

  /** TOP tracks among the first `n` that hold some of file bytes `a` to `e`. */
  ghost function TopsTouched(tracks: seq<Segment>, a: nat, e: nat, n: nat): set<nat>
    requires n <= |tracks|
  {
    set j | 0 <= j < n && tracks[j].typ.Top? && Overlaps(tracks, j, a, e)
  }

  lemma TouchesCount(tracks: seq<Segment>, a: nat, e: nat, n: nat)
    requires n <= |tracks|
    ensures |TopsTouched(tracks, a, e, n)| == Touches(tracks, a, e, n)
  {
    if n == 0 {
      assert TopsTouched(tracks, a, e, n) == {};
    } else {
      TouchesCount(tracks, a, e, n - 1);
      hide Overlaps;
      var here := if tracks[n - 1].typ.Top? && Overlaps(tracks, n - 1, a, e) then {n - 1} else {};
      assert TopsTouched(tracks, a, e, n) == TopsTouched(tracks, a, e, n - 1) + here;
    }
  }

  /** Merging never costs more than it saves: the distinct TOP tracks are at most the touches. */
  lemma DistinctAreTouched(tracks: seq<Segment>, updates: seq<Update>, data: Bytes, p: nat)
    requires Contiguous(updates, data, p)
    ensures |TopsTouched(tracks, p, |data|, |tracks|)| <= TotalTouches(tracks, updates)
  {
    if updates == [] {
      assert TopsTouched(tracks, p, p, |tracks|) == {};
    } else {
      var e := updates[0].End();
      DistinctAreTouched(tracks, updates[1..], data, e);
      TouchesCount(tracks, p, e, |tracks|);
      ContiguousEnds(updates[1..], data, e);
      var x, y, z := TopsTouched(tracks, p, e, |tracks|), TopsTouched(tracks, e, |data|, |tracks|),
        TopsTouched(tracks, p, |data|, |tracks|);
      forall j | j in z ensures j in x || j in y {
        OverlapSplit(tracks, j, p, e, |data|);
      }
      SubsetOfUnion(x, y, z);
    }
  }

  lemma SubsetOfUnion(x: set<nat>, y: set<nat>, z: set<nat>)
    requires z <= x + y
    ensures |z| <= |x| + |y|
  {
    var w := y - x;
    assert x + y == x + w && w <= y;
    CardinalityMonotone(z, x + y);
    CardinalityMonotone(w, y);
  }

  lemma CardinalityMonotone(a: set<nat>, b: set<nat>)
    requires a <= b
    ensures |a| <= |b|
  {
    assert b == a + (b - a);
  }

  /** The counters of one call. Naive mode rewrites a TOP track for every update that touches it; merged mode
      reads and writes each touched TOP track once, and counts the updates it saved. */
  ghost function CallTally(mode: Mode, c: Counters, tracks: seq<Segment>, updates: seq<Update>, data: Bytes,
          p: nat): Counters
    requires |TopsTouched(tracks, p, |data|, |tracks|)| <= TotalTouches(tracks, updates)
  {
    var touches, direct := TotalTouches(tracks, updates), TotalDirect(tracks, updates);
    var distinct := |TopsTouched(tracks, p, |data|, |tracks|)|;
    if mode.Naive? then Tally(Naive, c, touches, 0, direct)
    else FlushTally(Tally(Merged, c, touches, distinct, direct), distinct)
  }

  method TotalCapacity(tracks: seq<Segment>) returns (total: nat)
    ensures total == StartOf(tracks, |tracks|)
  {
    total := 0;
    for i := 0 to |tracks|
      invariant total == StartOf(tracks, i)
    {
      total := total + tracks[i].Capacity();
    }
  }

  method ApplyPendingUpdates(mode: Mode, dev: Bytes, c: Counters, tracks: seq<Segment>, updates: seq<Update>,
          data: Bytes, ghost p: nat)
    returns (ok: bool, dev': Bytes, c': Counters)
    requires TracksOk(tracks, |dev|) && Contiguous(updates, data, p)
    ensures ok <==> |data| <= StartOf(tracks, |tracks|)
    ensures !ok ==> dev' == dev && c' == c
    ensures ok ==> Written(dev, dev', tracks, data, p)
    ensures |TopsTouched(tracks, p, |data|, |tracks|)| <= TotalTouches(tracks, updates)
    ensures ok ==> c' == CallTally(mode, c, tracks, updates, data, p)
  {
    hide TracksOk, Reached, Written, Tally, FlushTally, StartOf, TotalTouches, TotalDirect;
    DistinctAreTouched(tracks, updates, data, p);
    var total := TotalCapacity(tracks);
    if |data| > total {
      return false, dev, c;
    }
    ok := true;
    var buffers;
    dev', buffers, c' := ApplyAll(mode, dev, c, tracks, updates, data, p);
    if mode.Merged? {
      MergedKeys(dev, dev', tracks, buffers, data, p);
      dev', c' := FlushMergedBuffers(dev', c', tracks, buffers, dev, data, p);
    } else {
      NaiveDone(dev, dev', tracks, buffers, data, p);
    }
  }

  lemma NaiveDone(was: Bytes, dev: Bytes, tracks: seq<Segment>, buffers: Buffers, data: Bytes, p: nat)
    requires Reached(Naive, was, dev, tracks, buffers, data, p, 0, |data|, |data|)
    ensures |buffers| == 0 && TracksOk(tracks, |was|) && Written(was, dev, tracks, data, p)
  {
    hide StartOf, Wanted, TrackBytes;
    forall j | 0 <= j < |tracks| ensures TrackBytes(dev, tracks[j]) == Wanted(was, tracks, data, j, p, |data|) {
      assert Content(dev, tracks, buffers, j) == Wanted(was, tracks, data, j, p, |data|);
    }
    assert buffers.Keys == {};
  }

  lemma MergedKeys(was: Bytes, dev: Bytes, tracks: seq<Segment>, buffers: Buffers, data: Bytes, p: nat)
    requires Reached(Merged, was, dev, tracks, buffers, data, p, 0, |data|, |data|)
    ensures |buffers| == |TopsTouched(tracks, p, |data|, |tracks|)|
  {
    assert TopTracks(tracks, p, 0, |data|, |data|) == TopsTouched(tracks, p, |data|, |tracks|);
    assert |buffers.Keys| == |buffers|;
  }

  // ---- Reading back

  /** The first `p` bytes of the file are in its tracks. */
  ghost predicate Holds(dev: Bytes, tracks: seq<Segment>, data: Bytes, p: nat)
    requires TracksOk(tracks, |dev|) && p <= |data|
  {
    forall i | 0 <= i < |tracks| :: HoldsTrack(TrackBytes(dev, tracks[i]), StartOf(tracks, i), data, p)
  }

  ghost predicate HoldsTrack(t: Bytes, start: nat, data: Bytes, p: nat)
    requires p <= |data|
  {
    forall l | 0 <= l < |t| && start + l < p :: t[l] == data[start + l]
  }

  lemma AfterHolds(typ: TrackType, was: Bytes, start: nat, data: Bytes, p: nat)
    requires p <= |data| && HoldsTrack(was, start, data, p)
    ensures HoldsTrack(After(typ, was, start, data, p, |data|), start, data, |data|)
  {
    var t := After(typ, was, start, data, p, |data|);
    forall l | 0 <= l < |t| && start + l < |data| ensures t[l] == data[start + l] {
      if start + l >= p {
        assert Max(p, start) <= start + l < Min(|data|, start + |was|);
        assert SectorFloor(Max(p, start)) <= start + l < SectorCeil(Min(|data|, start + |was|));
      }
    }
  }

  /** If the bytes before `p` were in the tracks, then after the updates the whole file is. */
  lemma WrittenHolds(was: Bytes, dev: Bytes, tracks: seq<Segment>, data: Bytes, p: nat)
    requires TracksOk(tracks, |was|) && p <= |data| && Holds(was, tracks, data, p) && Written(was, dev, tracks, data, p)
    ensures Holds(dev, tracks, data, |data|)
  {
    hide After, HoldsTrack, StartOf, TrackBytes;
    forall i | 0 <= i < |tracks| ensures HoldsTrack(TrackBytes(dev, tracks[i]), StartOf(tracks, i), data, |data|) {
      assert TrackBytes(dev, tracks[i]) == Wanted(was, tracks, data, i, p, |data|);
      AfterHolds(tracks[i].typ, TrackBytes(was, tracks[i]), StartOf(tracks, i), data, p);
    }
  }

  /** Read the next bytes of a payload from one track, in whole sectors. */
  method ReadChunk(dev: Bytes, segment: Segment, chunk: nat) returns (r: Bytes)
    requires segment.Base() + segment.Capacity() <= |dev| && segment.Capacity() % SECTOR_SIZE == 0
    requires chunk <= segment.Capacity()
    ensures |r| == chunk && r <= TrackBytes(dev, segment)
  {
    SectorCeilMost(chunk, segment.Capacity());
    var buffer := dev[segment.Base()..segment.Base() + SectorCeil(chunk)];
    r := buffer[..chunk];
  }

  /** Read a payload of `size` bytes from its tracks. */
  method RestorePayload(dev: Bytes, tracks: seq<Segment>, size: nat) returns (r: Option<Bytes>)
    requires TracksOk(tracks, |dev|)
    ensures r.Some? <==> size <= StartOf(tracks, |tracks|)
    ensures r.Some? ==> |r.value| == size && Holds(dev, tracks, r.value, size)
  {
    hide TracksOk, TrackBytes, HeldBefore, Holds;
    var restored: Bytes := [];
    HeldNone(dev, tracks);
    var i := 0;
    while i < |tracks| && |restored| < size
      invariant i <= |tracks| && |restored| == Min(size, StartOf(tracks, i))
      invariant HeldBefore(dev, tracks, restored, i)
    {
      OnDevice(tracks, |dev|, i);
      var chunk := Min(tracks[i].Capacity(), size - |restored|);
      var more := ReadChunk(dev, tracks[i], chunk);
      HeldNext(dev, tracks, restored, i, more);
      restored := restored + more;
      i := i + 1;
    }
    StartGrows(tracks, i, |tracks|);
    if |restored| != size {
      return None;
    }
    HeldEnough(dev, tracks, restored, i);
    r := Some(restored);
  }

  lemma HeldNone(dev: Bytes, tracks: seq<Segment>)
    requires TracksOk(tracks, |dev|)
    ensures HeldBefore(dev, tracks, [], 0)
  {
  }

  lemma StartGrows(tracks: seq<Segment>, i: nat, n: nat)
    requires i <= n <= |tracks|
    ensures StartOf(tracks, i) <= StartOf(tracks, n)
  {
    if i < n {
      StartGrows(tracks, i, n - 1);
    }
  }

  lemma OnDevice(tracks: seq<Segment>, size: nat, i: nat)
    requires TracksOk(tracks, size) && i < |tracks|
    ensures tracks[i].Valid() && tracks[i].Base() + tracks[i].Capacity() <= size
    ensures tracks[i].Capacity() % SECTOR_SIZE == 0
  {
    WholeSectors(tracks[i]);
  }

  /** The tracks before `i` hold what has been read. */
  ghost predicate HeldBefore(dev: Bytes, tracks: seq<Segment>, data: Bytes, i: nat)
    requires TracksOk(tracks, |dev|) && i <= |tracks|
  {
    forall j | 0 <= j < i :: HoldsTrack(TrackBytes(dev, tracks[j]), StartOf(tracks, j), data, |data|)
  }

  lemma HoldsMore(t: Bytes, start: nat, data: Bytes, more: Bytes)
    requires HoldsTrack(t, start, data, |data|) && start + |t| <= |data|
    ensures HoldsTrack(t, start, data + more, |data + more|)
  {
  }

  lemma HoldsFresh(t: Bytes, data: Bytes, more: Bytes)
    requires more <= t
    ensures HoldsTrack(t, |data|, data + more, |data + more|)
  {
  }

  lemma StartNext(tracks: seq<Segment>, j: nat)
    requires j < |tracks|
    ensures StartOf(tracks, j + 1) == StartOf(tracks, j) + tracks[j].Capacity()
  {
  }

  lemma HeldNext(dev: Bytes, tracks: seq<Segment>, data: Bytes, i: nat, more: Bytes)
    requires TracksOk(tracks, |dev|) && i < |tracks| && HeldBefore(dev, tracks, data, i) && |data| == StartOf(tracks, i)
    requires more <= TrackBytes(dev, tracks[i])
    ensures HeldBefore(dev, tracks, data + more, i + 1)
  {
    hide HoldsTrack, TrackBytes, StartOf;
    forall j | 0 <= j < i + 1
      ensures HoldsTrack(TrackBytes(dev, tracks[j]), StartOf(tracks, j), data + more, |data + more|)
    {
      if j < i {
        StartNext(tracks, j);
        StartGrows(tracks, j + 1, i);
        HoldsMore(TrackBytes(dev, tracks[j]), StartOf(tracks, j), data, more);
      } else {
        HoldsFresh(TrackBytes(dev, tracks[j]), data, more);
      }
    }
  }

  lemma HeldEnough(dev: Bytes, tracks: seq<Segment>, data: Bytes, i: nat)
    requires TracksOk(tracks, |dev|) && i <= |tracks| && HeldBefore(dev, tracks, data, i)
    requires |data| <= StartOf(tracks, i)
    ensures Holds(dev, tracks, data, |data|)
  {
    forall j | 0 <= j < |tracks| ensures HoldsTrack(TrackBytes(dev, tracks[j]), StartOf(tracks, j), data, |data|) {
      if j >= i {
        StartGrows(tracks, i, j);
      }
    }
  }

  /** The tracks determine the payload. */
  lemma PayloadUnique(dev: Bytes, tracks: seq<Segment>, a: Bytes, b: Bytes)
    requires TracksOk(tracks, |dev|) && |a| == |b| <= StartOf(tracks, |tracks|)
    requires Holds(dev, tracks, a, |a|) && Holds(dev, tracks, b, |b|)
    ensures a == b
  {
    hide TracksOk, HoldsTrack, StartOf, TrackBytes;
    forall x: nat | x < |a| ensures a[x] == b[x] {
      var i := TrackOf(tracks, x, |tracks|);
      OnDevice(tracks, |dev|, i);
      SameByte(TrackBytes(dev, tracks[i]), StartOf(tracks, i), a, b, x);
    }
  }

  lemma SameByte(t: Bytes, start: nat, a: Bytes, b: Bytes, x: nat)
    requires HoldsTrack(t, start, a, |a|) && HoldsTrack(t, start, b, |b|) && start <= x < start + |t| && x < |a| == |b|
    ensures a[x] == b[x]
  {
    var l := x - start;
    assert t[l] == a[start + l] && t[l] == b[start + l];
  }

  /** The track that holds file byte `x`. */
  lemma TrackOf(tracks: seq<Segment>, x: nat, n: nat) returns (i: nat)
    requires n <= |tracks| && x < StartOf(tracks, n)
    ensures i < n && StartOf(tracks, i) <= x < StartOf(tracks, i) + tracks[i].Capacity()
  {
    if x >= StartOf(tracks, n - 1) {
      i := n - 1;
    } else {
      i := TrackOf(tracks, x, n - 1);
    }
  }
}
