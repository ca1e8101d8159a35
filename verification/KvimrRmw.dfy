/** Applying an SSTable's pending updates to the device, by naive or merged read-modify-write. */
module KvimrRmw {
  import opened Extrema
  import opened KvimrTracks
  import opened KvimrPayload

  datatype Mode = Naive | Merged

  datatype Update = Update(offset: nat, data: Bytes)
  {
    function End(): nat {
      offset + |data|
    }
  }

  datatype Counters = Counters(
    naiveRmw: nat, naiveRead: nat, naiveWrite: nat, direct: nat,
    mergedRmw: nat, mergedRead: nat, mergedWrite: nat,
    logical: nat, saved: nat, created: nat, hits: nat, flushed: nat)

  /** Tracks written whole, by TOP track index in the file. */
  type Buffers = map<nat, Bytes>

  // ---- The tracks of a file

  /** File offset at which track `i` begins. */
  function StartOf(tracks: seq<Segment>, i: nat): nat
    requires i <= |tracks|
  {
    if i == 0 then 0 else StartOf(tracks, i - 1) + tracks[i - 1].Capacity()
  }

  /** Different valid tracks that lie on the device. */
  ghost predicate TracksOk(tracks: seq<Segment>, size: nat) {
    && (forall i | 0 <= i < |tracks| :: tracks[i].Valid() && tracks[i].Base() + tracks[i].Capacity() <= size)
    && (forall i, j | 0 <= i < j < |tracks| :: tracks[i] != tracks[j])
  }

  function TrackBytes(dev: Bytes, s: Segment): (r: Bytes)
    requires s.Base() + s.Capacity() <= |dev|
    ensures |r| == s.Capacity()
  {
    dev[s.Base()..s.Base() + s.Capacity()]
  }

  predicate InTrack(s: Segment, x: nat) {
    s.Base() <= x < s.Base() + s.Capacity()
  }

  /** Nothing outside one track has changed. */
  ghost predicate OnlyTrack(dev: Bytes, dev': Bytes, s: Segment) {
    |dev'| == |dev| && forall x | 0 <= x < |dev| && !InTrack(s, x) :: dev'[x] == dev[x]
  }

  lemma WriteInside(dev: Bytes, s: Segment, local: nat, b: Bytes)
    requires s.Base() + s.Capacity() <= |dev| && local + |b| <= s.Capacity()
    ensures TrackBytes(Patch(dev, s.Base() + local, b), s) == Patch(TrackBytes(dev, s), local, b)
    ensures OnlyTrack(dev, Patch(dev, s.Base() + local, b), s)
  {
    var x, y := TrackBytes(Patch(dev, s.Base() + local, b), s), Patch(TrackBytes(dev, s), local, b);
    assert forall l | 0 <= l < |x| :: x[l] == y[l];
  }

  /** A change to one track leaves every other track as it was. */
  lemma OtherTrack(dev: Bytes, dev': Bytes, s: Segment, o: Segment)
    requires OnlyTrack(dev, dev', s) && s.Valid() && o.Valid() && s != o
    requires s.Base() + s.Capacity() <= |dev| && o.Base() + o.Capacity() <= |dev|
    ensures TrackBytes(dev', o) == TrackBytes(dev, o)
  {
    DifferentTracks(s, o);
    SameElsewhere(dev, dev', s, o.Base(), o.Capacity());
  }

  lemma SameElsewhere(dev: Bytes, dev': Bytes, s: Segment, base: nat, n: nat)
    requires OnlyTrack(dev, dev', s) && base + n <= |dev|
    requires s.Base() + s.Capacity() <= base || base + n <= s.Base()
    ensures dev'[base..base + n] == dev[base..base + n]
  {
    forall x | base <= x < base + n ensures dev'[x] == dev[x] {
      assert !InTrack(s, x);
    }
  }

  lemma DifferentTracks(s: Segment, o: Segment)
    requires s.Valid() && o.Valid() && s != o
    ensures s.Base() + s.Capacity() <= o.Base() || o.Base() + o.Capacity() <= s.Base()
  {
    TracksDisjoint(s, o);
  }

  predicate InTracks(tracks: seq<Segment>, x: nat) {
    exists i | 0 <= i < |tracks| :: InTrack(tracks[i], x)
  }

  // ---- What the tracks must hold

  /** Track `i` as the merged mode sees it: its buffer if it has one, else the device. */
  function Content(dev: Bytes, tracks: seq<Segment>, buffers: Buffers, i: nat): Bytes
    requires i < |tracks| && tracks[i].Base() + tracks[i].Capacity() <= |dev|
  {
    if i in buffers then buffers[i] else TrackBytes(dev, tracks[i])
  }

  /** Track `i` once file bytes `p` to `q` have been applied to the device `was`. */
  function Wanted(was: Bytes, tracks: seq<Segment>, data: Bytes, i: nat, p: nat, q: nat): Bytes
    requires i < |tracks| && tracks[i].Base() + tracks[i].Capacity() <= |was| && q <= |data|
  {
    After(tracks[i].typ, TrackBytes(was, tracks[i]), StartOf(tracks, i), data, p, q)
  }

  predicate Overlaps(tracks: seq<Segment>, i: nat, a: nat, e: nat)
    requires i < |tracks|
  {
    Max(a, StartOf(tracks, i)) < Min(e, StartOf(tracks, i) + tracks[i].Capacity())
  }

  // ---- One update meets one track

  /** Read a TOP track, change it, write it back. */
  method NaiveRmw(dev: Bytes, c: Counters, segment: Segment, local: nat, piece: Bytes)
    returns (dev': Bytes, c': Counters)
    requires segment.Base() + segment.Capacity() <= |dev| && local + |piece| <= segment.Capacity()
    ensures OnlyTrack(dev, dev', segment)
    ensures TrackBytes(dev', segment) == Patch(TrackBytes(dev, segment), local, piece)
    ensures c' ==
            c.(naiveRmw := c.naiveRmw + 1, naiveRead := c.naiveRead + segment.Capacity(),
               naiveWrite := c.naiveWrite + segment.Capacity())
  {
    var base, capacity := segment.Base(), segment.Capacity();
    var track := Patch(dev[base..base + capacity], local, piece);
    dev' := Patch(dev, base, track);
    WriteInside(dev, segment, 0, track);
    assert Patch(TrackBytes(dev, segment), 0, track) == track;
    c' := c.(naiveRmw := c.naiveRmw + 1, naiveRead := c.naiveRead + capacity, naiveWrite := c.naiveWrite + capacity);
  }

  /** Change a TOP track in its buffer, which is filled from the device the first time. */
  method MergedRmw(dev: Bytes, buffers: Buffers, c: Counters, i: nat, segment: Segment, local: nat, piece: Bytes)
    returns (buffers': Buffers, c': Counters)
    requires segment.Base() + segment.Capacity() <= |dev| && local + |piece| <= segment.Capacity()
    requires i in buffers ==> |buffers[i]| == segment.Capacity()
    ensures buffers' == buffers[i := Patch(if i in buffers then buffers[i] else TrackBytes(dev, segment), local, piece)]
    ensures c' == if i in buffers
                  then c.(logical := c.logical + 1, saved := c.saved + 1, hits := c.hits + 1)
                  else c.(logical := c.logical + 1, created := c.created + 1,
                          mergedRead := c.mergedRead + segment.Capacity())
  {
    var base, capacity := segment.Base(), segment.Capacity();
    c' := c.(logical := c.logical + 1);
    var buffer;
    if i !in buffers {
      buffer := dev[base..base + capacity];
      c' := c'.(mergedRead := c'.mergedRead + capacity, created := c'.created + 1);
    } else {
      buffer := buffers[i];
      c' := c'.(saved := c'.saved + 1, hits := c'.hits + 1);
    }
    buffers' := buffers[i := Patch(buffer, local, piece)];
  }

  /** The part of an update that falls on one track. */
  lemma Piece(u: Update, data: Bytes, lo: nat, hi: nat)
    requires u.End() <= |data| && u.data == data[u.offset..u.End()] && u.offset <= lo <= hi <= u.End()
    ensures u.data[lo - u.offset..hi - u.offset] == data[lo..hi]
  {
  }

  /** Send whole sectors of the file to a BOTTOM track. */
  method DirectWrite(dev: Bytes, c: Counters, segment: Segment, start: nat, data: Bytes, a: nat, e: nat,
          ghost was: Bytes, ghost p: nat)
    returns (dev': Bytes, c': Counters)
    requires segment.Base() + segment.Capacity() <= |dev| && |was| == segment.Capacity()
    requires start % SECTOR_SIZE == 0 && segment.Capacity() % SECTOR_SIZE == 0
    requires p <= a <= e <= |data| && Max(a, start) < Min(e, start + segment.Capacity())
    requires TrackBytes(dev, segment) == BottomAfter(was, start, data, p, a)
    ensures OnlyTrack(dev, dev', segment)
    ensures TrackBytes(dev', segment) == BottomAfter(was, start, data, p, e)
    ensures c' == c.(direct := c.direct + SectorSpan(start, segment.Capacity(), a, e))
  {
    hide Patch, BottomAfter, SectorFloor, SectorCeil;
    BottomStep(was, start, data, p, a, e);
    var alignedStart := SectorFloor(Max(a, start));
    var alignedEnd := SectorCeil(Min(e, start + segment.Capacity()));
    var direct := Sectors(data, alignedStart, alignedEnd);
    dev' := Patch(dev, segment.Base() + (alignedStart - start), direct);
    WriteInside(dev, segment, alignedStart - start, direct);
    c' := c.(direct := c.direct + |direct|);
  }

  /** Bytes of the whole sectors of a track that hold file bytes `a` to `e`. */
  function SectorSpan(start: nat, capacity: nat, a: nat, e: nat): nat
    requires Max(a, start) < Min(e, start + capacity)
  {
    SectorCeil(Min(e, start + capacity)) - SectorFloor(Max(a, start))
  }

  /** One TOP track as the current mode sees it. */
  function TopContent(dev: Bytes, segment: Segment, buffers: Buffers, i: nat): Bytes
    requires segment.Base() + segment.Capacity() <= |dev|
  {
    if i in buffers then buffers[i] else TrackBytes(dev, segment)
  }

  method TouchTop(mode: Mode, dev: Bytes, buffers: Buffers, c: Counters, i: nat, segment: Segment, start: nat,
                  u: Update, data: Bytes, ghost was: Bytes, ghost p: nat)
    returns (dev': Bytes, buffers': Buffers, c': Counters)
    requires segment.Base() + segment.Capacity() <= |dev| && |was| == segment.Capacity() == SegmentBytes(Top)
    requires p <= u.offset <= u.End() <= |data| && u.data == data[u.offset..u.End()]
    requires Max(u.offset, start) < Min(u.End(), start + segment.Capacity())
    requires TopContent(dev, segment, buffers, i) == TopAfter(was, start, data, p, u.offset)
    requires i in buffers ==> mode.Merged?
    ensures OnlyTrack(dev, dev', segment)
    ensures TopContent(dev', segment, buffers', i) == TopAfter(was, start, data, p, u.End())
    ensures if mode.Merged? then dev' == dev && i in buffers' && buffers' == buffers[i := buffers'[i]]
            else buffers' == buffers
    ensures c' == CountTop(mode, c, i in buffers)
  {
    hide Patch, TopAfter, TrackBytes;
    var lo := Max(u.offset, start);
    var hi := Min(u.End(), start + segment.Capacity());
    dev', buffers' := dev, buffers;
    TopStep(was, start, data, p, u.offset, u.End());
    Piece(u, data, lo, hi);
    var piece := u.data[lo - u.offset..hi - u.offset];
    if mode.Naive? {
      dev', c' := NaiveRmw(dev, c, segment, lo - start, piece);
    } else {
      buffers', c' := MergedRmw(dev, buffers, c, i, segment, lo - start, piece);
    }
  }

  /** The body of the inner loop where an update and a track overlap. */
  method TouchTrack(mode: Mode, dev: Bytes, buffers: Buffers, c: Counters, tracks: seq<Segment>, i: nat, start: nat,
                    u: Update, data: Bytes, ghost was: Bytes, ghost p: nat)
    returns (dev': Bytes, buffers': Buffers, c': Counters)
    requires TracksOk(tracks, |dev|) && |was| == |dev| && i < |tracks| && start == StartOf(tracks, i)
    requires p <= u.offset <= u.End() <= |data| && u.data == data[u.offset..u.End()]
    requires Overlaps(tracks, i, u.offset, u.End())
    requires Content(dev, tracks, buffers, i) == Wanted(was, tracks, data, i, p, u.offset)
    requires i in buffers ==> mode.Merged? && tracks[i].typ.Top?
    ensures OnlyTrack(dev, dev', tracks[i])
    ensures Content(dev', tracks, buffers', i) == Wanted(was, tracks, data, i, p, u.End())
    ensures if tracks[i].typ.Top? && mode.Merged?
            then dev' == dev && i in buffers' && buffers' == buffers[i := buffers'[i]]
            else buffers' == buffers
    ensures c' == CountTouch(mode, c, tracks, i, u.offset, u.End(), i in buffers)
  {
    hide Patch, TopAfter, BottomAfter, StartOf, TrackBytes, SectorSpan, SegmentAt, CountTop;
    var segment := tracks[i];
    ValidCapacity(segment);
    ghost var old_ := TrackBytes(was, segment);
    if segment.typ.Top? {
      dev', buffers', c' := TouchTop(mode, dev, buffers, c, i, segment, start, u, data, old_, p);
    } else {
      StartOnSector(tracks, i);
      buffers' := buffers;
      dev', c' := DirectWrite(dev, c, segment, start, data, u.offset, u.End(), old_, p);
    }
  }

  lemma ValidCapacity(s: Segment)
    requires s.Valid()
    ensures s.Capacity() == SegmentBytes(s.typ) && s.Capacity() % SECTOR_SIZE == 0
  {
  }

  lemma StartOnSector(tracks: seq<Segment>, i: nat)
    requires i <= |tracks|
    ensures StartOf(tracks, i) % SECTOR_SIZE == 0
  {
    if i > 0 {
      StartOnSector(tracks, i - 1);
      WholeSectors(tracks[i - 1]);
    }
  }

  function CountTop(mode: Mode, c: Counters, loaded: bool): Counters {
    if mode.Naive? then
      c.(naiveRmw := c.naiveRmw + 1, naiveRead := c.naiveRead + SegmentBytes(Top),
         naiveWrite := c.naiveWrite + SegmentBytes(Top))
    else if loaded then c.(logical := c.logical + 1, saved := c.saved + 1, hits := c.hits + 1)
    else c.(logical := c.logical + 1, created := c.created + 1, mergedRead := c.mergedRead + SegmentBytes(Top))
  }

  function CountTouch(mode: Mode, c: Counters, tracks: seq<Segment>, i: nat, a: nat, e: nat, loaded: bool): Counters
    requires i < |tracks| && Overlaps(tracks, i, a, e)
  {
    if tracks[i].typ.Top? then CountTop(mode, c, loaded)
    else c.(direct := c.direct + SectorSpan(StartOf(tracks, i), tracks[i].Capacity(), a, e))
  }
}
