/** What the tracks of an SSTable hold after its pending updates are applied, and that the payload can be
    read back from them. */
module KvimrPayload {
  import opened Extrema
  import opened KvimrTracks

  newtype Byte = b: int | 0 <= b < 256
  type Bytes = seq<Byte>

  /** Start of the sector that holds byte `x`. */
  function SectorFloor(x: nat): (r: nat)
    ensures r <= x < r + SECTOR_SIZE && r % SECTOR_SIZE == 0
  {
    x / SECTOR_SIZE * SECTOR_SIZE
  }

  /** End of the last sector touched by bytes before `x`. */
  function SectorCeil(x: nat): (r: nat)
    ensures x <= r < x + SECTOR_SIZE && r % SECTOR_SIZE == 0
  {
    (x + SECTOR_SIZE - 1) / SECTOR_SIZE * SECTOR_SIZE
  }

  lemma SectorFloorLeast(x: nat, m: nat)
    requires m % SECTOR_SIZE == 0 && m <= x
    ensures m <= SectorFloor(x)
  {
  }

  lemma SectorCeilMost(x: nat, m: nat)
    requires m % SECTOR_SIZE == 0 && x <= m
    ensures SectorCeil(x) <= m
  {
  }

  /** Bytes of `t` overwritten from `at` on. */
  function Patch(t: Bytes, at: nat, b: Bytes): (r: Bytes)
    requires at + |b| <= |t|
    ensures |r| == |t|
    ensures forall i | 0 <= i < |t| :: r[i] == if at <= i < at + |b| then b[i - at] else t[i]
  {
    t[..at] + b + t[at + |b|..]
  }

  /** The bytes of a TOP track that starts at file offset `start`, once file bytes `p` to `q` are in. */
  function TopAfter(was: Bytes, start: nat, data: Bytes, p: nat, q: nat): (r: Bytes)
    requires q <= |data|
    ensures |r| == |was|
    ensures forall l | 0 <= l < |was| :: r[l] == if p <= start + l < q then data[start + l] else was[l]
  {
    seq(|was|, l requires 0 <= l < |was| => if p <= start + l < q then data[start + l] else was[l])
  }

  /** A BOTTOM track is written in whole sectors, padded with zeros past the end of the file. */
  function BottomAfter(was: Bytes, start: nat, data: Bytes, p: nat, q: nat): (r: Bytes)
    requires q <= |data|
    ensures |r| == |was|
    ensures var lo, hi := Max(p, start), Min(q, start + |was|);
            forall l | 0 <= l < |was| :: r[l] ==
              if lo < hi && SectorFloor(lo) <= start + l < SectorCeil(hi) then FileByte(data, start + l) else was[l]
  {
    var lo, hi := Max(p, start), Min(q, start + |was|);
    seq(|was|, l requires 0 <= l < |was| =>
      if lo < hi && SectorFloor(lo) <= start + l < SectorCeil(hi) then FileByte(data, start + l) else was[l])
  }

  function FileByte(data: Bytes, x: nat): Byte {
    if x < |data| then data[x] else 0
  }

  function After(typ: TrackType, was: Bytes, start: nat, data: Bytes, p: nat, q: nat): (r: Bytes)
    requires q <= |data|
    ensures |r| == |was|
  {
    if typ.Top? then TopAfter(was, start, data, p, q) else BottomAfter(was, start, data, p, q)
  }

  /** A step that reaches no byte of the track changes nothing. */
  lemma AfterNoOverlap(typ: TrackType, was: Bytes, start: nat, data: Bytes, p: nat, a: nat, e: nat)
    requires p <= a <= e <= |data| && Max(a, start) >= Min(e, start + |was|)
    ensures After(typ, was, start, data, p, e) == After(typ, was, start, data, p, a)
  {
    var x, y := After(typ, was, start, data, p, e), After(typ, was, start, data, p, a);
    forall l | 0 <= l < |was| ensures x[l] == y[l] {
    }
  }

  lemma AfterNothing(typ: TrackType, was: Bytes, start: nat, data: Bytes, p: nat)
    requires p <= |data|
    ensures After(typ, was, start, data, p, p) == was
  {
    assert forall l | 0 <= l < |was| :: After(typ, was, start, data, p, p)[l] == was[l];
  }

  /** One read-modify-write of a TOP track. */
  lemma TopStep(was: Bytes, start: nat, data: Bytes, p: nat, a: nat, e: nat)
    requires p <= a <= e <= |data|
    requires Max(a, start) < Min(e, start + |was|)
    ensures var lo, hi := Max(a, start), Min(e, start + |was|);
            Patch(TopAfter(was, start, data, p, a), lo - start, data[lo..hi]) == TopAfter(was, start, data, p, e)
  {
    var lo, hi := Max(a, start), Min(e, start + |was|);
    var x, y := Patch(TopAfter(was, start, data, p, a), lo - start, data[lo..hi]), TopAfter(was, start, data, p, e);
    forall l | 0 <= l < |was| ensures x[l] == y[l] {
    }
  }

  /** The sectors that a direct write sends. */
  function Sectors(data: Bytes, from: nat, to: nat): (r: Bytes)
    requires from <= to
    ensures |r| == to - from
    ensures forall i | 0 <= i < |r| :: r[i] == FileByte(data, from + i)
  {
    seq(to - from, i requires 0 <= i < to - from => FileByte(data, from + i))
  }

  /** One direct write to a BOTTOM track. */
  lemma BottomStep(was: Bytes, start: nat, data: Bytes, p: nat, a: nat, e: nat)
    requires p <= a <= e <= |data|
    requires start % SECTOR_SIZE == 0 && |was| % SECTOR_SIZE == 0
    requires Max(a, start) < Min(e, start + |was|)
    ensures var lo, hi := SectorFloor(Max(a, start)), SectorCeil(Min(e, start + |was|));
            && start <= lo <= hi <= start + |was|
            && Patch(BottomAfter(was, start, data, p, a), lo - start, Sectors(data, lo, hi)) ==
              BottomAfter(was, start, data, p, e)
  {
    var lo, hi := SectorFloor(Max(a, start)), SectorCeil(Min(e, start + |was|));
    SectorFloorLeast(Max(a, start), start);
    SectorCeilMost(Min(e, start + |was|), start + |was|);
    var x := Patch(BottomAfter(was, start, data, p, a), lo - start, Sectors(data, lo, hi));
    var y := BottomAfter(was, start, data, p, e);
    BottomRegions(was, start, p, a, e);
    forall l | 0 <= l < |was| ensures x[l] == y[l] {
    }
  }

  /** The sectors of one write join those written before. */
  lemma BottomRegions(was: Bytes, start: nat, p: nat, a: nat, e: nat)
    requires p <= a <= e && start % SECTOR_SIZE == 0 && |was| % SECTOR_SIZE == 0
    requires Max(a, start) < Min(e, start + |was|)
    ensures var end := start + |was|;
            var before := Max(p, start) < Min(a, end);
            && (!before ==> SectorFloor(Max(p, start)) == SectorFloor(Max(a, start)))
            && (before ==>
                  && SectorFloor(Max(p, start)) <= SectorFloor(Max(a, start)) <= SectorCeil(Min(a, end))
                  && SectorCeil(Min(a, end)) <= SectorCeil(Min(e, end)))
  {
    var end := start + |was|;
    if Max(p, start) < Min(a, end) {
      SectorFloorLeast(Max(a, start), SectorFloor(Max(p, start)));
      SectorCeilMost(Min(a, end), SectorCeil(Min(e, end)));
    }
  }
}
