/** The track allocator: which SSTable owns which TOP and BOTTOM track. */
module KvimrAllocator {
  import opened KvimrTracks

  datatype Status = Ok | InvalidArgument | IOError | NotFound | Corruption

  type Owners = seq<nat>

  /** Number of tracks without an owner. */
  function FreeCount(owners: Owners): nat {
    if owners == [] then 0 else FreeCount(owners[..|owners| - 1]) + (if owners[|owners| - 1] == 0 then 1 else 0)
  }

  lemma {:induction false} FreeCountTake(owners: Owners, i: nat, id: nat)
    requires i < |owners| && owners[i] == 0 && id != 0
    ensures FreeCount(owners[i := id]) == FreeCount(owners) - 1
    decreases |owners|
  {
    var n := |owners| - 1;
    if i == n {
      assert owners[i := id][..n] == owners[..n];
    } else {
      assert owners[i := id][..n] == owners[..n][i := id];
      FreeCountTake(owners[..n], i, id);
    }
  }

  lemma {:induction false} FreeCountZero(owners: Owners)
    ensures FreeCount(owners) == 0 <==> forall i | 0 <= i < |owners| :: owners[i] != 0
    decreases |owners|
  {
    if owners != [] {
      FreeCountZero(owners[..|owners| - 1]);
    }
  }

  /** Bytes that the free tracks of a tier can hold. */
  function FreeBytes(owners: Owners, typ: TrackType): nat {
    FreeCount(owners) * SegmentBytes(typ)
  }

  lemma FreeBytesTake(owners: Owners, typ: TrackType, i: nat, id: nat)
    requires i < |owners| && owners[i] == 0 && id != 0
    ensures FreeBytes(owners, typ) == FreeBytes(owners[i := id], typ) + SegmentBytes(typ)
  {
    FreeCountTake(owners, i, id);
    var n := FreeCount(owners[i := id]);
    assert (n + 1) * SegmentBytes(typ) == n * SegmentBytes(typ) + SegmentBytes(typ);
  }

  lemma FreeBytesNone(owners: Owners, typ: TrackType)
    requires FreeCount(owners) == 0
    ensures FreeBytes(owners, typ) == 0
  {
  }

  /** Cyclic scan from the cursor for a free track. */
  method FindFree(owners: Owners, cursor: nat) returns (found: bool, index: nat)
    requires cursor < |owners|
    ensures found <==> FreeCount(owners) > 0
    ensures found ==> index < |owners| && owners[index] == 0
    ensures found ==> FirstFree(owners, cursor, index)
  {
    FreeCountZero(owners);
    var n := |owners|;
    index := 0;
    for step := 0 to n
      invariant forall k | 0 <= k < step :: owners[Around(cursor, k, n)] != 0
    {
      AroundIsMod(cursor, step, n);
      index := (cursor + step) % n;
      if owners[index] == 0 {
        return true, index;
      }
    }
    forall i | 0 <= i < n ensures owners[i] != 0 {
      assert Around(cursor, Distance(cursor, i, n), n) == i;
    }
    return false, 0;
  }

  /** `k` places after `c` on a ring of `n`. */
  function Around(c: nat, k: nat, n: nat): (r: nat)
    requires c < n && k < n
    ensures r < n
  {
    if c + k < n then c + k else c + k - n
  }

  function Distance(c: nat, i: nat, n: nat): (k: nat)
    requires c < n && i < n
    ensures k < n && Around(c, k, n) == i
  {
    if i >= c then i - c else i + n - c
  }

  /** From the cursor on, around the ring, this is the first free track. */
  ghost predicate FirstFree(owners: Owners, cursor: nat, index: nat)
    requires cursor < |owners| && index < |owners|
  {
    && owners[index] == 0
    && forall k | 0 <= k < Distance(cursor, index, |owners|) :: owners[Around(cursor, k, |owners|)] != 0
  }

  lemma AroundIsMod(c: nat, k: nat, n: nat)
    requires c < n && k < n
    ensures (c + k) % n == Around(c, k, n)
    ensures Distance(c, Around(c, k, n), n) == k
  {
    if c + k >= n {
      ModOnce(c + k - n, n);
    }
  }

  lemma ModOnce(x: nat, n: nat)
    requires x < n
    ensures (x + n) % n == x
  {
    var q, r := (x + n) / n, (x + n) % n;
    assert (q - 1) * n == x - r;
    OnlyZeroFits(q - 1, n, x - r);
  }

  lemma OnlyZeroFits(k: int, n: int, d: int)
    requires k * n == d && -n < d < n
    ensures k == 0
  {
  }

  /** Owner tables of both tiers. */
  datatype Tables = Tables(top: Owners, bottom: Owners)
  {
    function Of(typ: TrackType): Owners {
      if typ.Top? then top else bottom
    }

    function Set(typ: TrackType, i: nat, id: nat): Tables
      requires i < |Of(typ)|
    {
      if typ.Top? then this.(top := top[i := id]) else this.(bottom := bottom[i := id])
    }
  }

  /** `after` is `before` with exactly the tracks of `segments`, all free before and all different,
      given to `id`. */
  ghost predicate Took(before: Tables, after: Tables, id: nat, segments: seq<Segment>) {
    && |after.top| == |before.top| && |after.bottom| == |before.bottom|
    && (forall typ: TrackType, i | 0 <= i < |before.Of(typ)| ::
          after.Of(typ)[i] == if SegmentAt(typ, i) in segments then id else before.Of(typ)[i])
    && (forall g | 0 <= g < |segments| ::
          var s := segments[g];
          s.Valid() && s.Index() < |before.Of(s.typ)| && before.Of(s.typ)[s.Index()] == 0)
    && (forall g, h | 0 <= g < h < |segments| :: segments[g] != segments[h])
  }

  lemma TookNone(t: Tables, id: nat)
    ensures Took(t, t, id, [])
  {
  }

  lemma TookOne(before: Tables, now: Tables, id: nat, segments: seq<Segment>, typ: TrackType, i: nat)
    requires Took(before, now, id, segments) && id != 0 && i < |now.Of(typ)| && now.Of(typ)[i] == 0
    ensures Took(before, now.Set(typ, i, id), id, segments + [SegmentAt(typ, i)])
  {
    var after, s := now.Set(typ, i, id), SegmentAt(typ, i);
    var segments' := segments + [s];
    SegmentRoundTrip(typ, i);
    assert before.Of(typ)[i] == 0 && s !in segments;
    forall ty: TrackType, j | 0 <= j < |before.Of(ty)|
      ensures after.Of(ty)[j] == if SegmentAt(ty, j) in segments' then id else before.Of(ty)[j]
    {
      SegmentRoundTrip(ty, j);
      assert SegmentAt(ty, j) in segments' <==> SegmentAt(ty, j) in segments || (ty == typ && j == i);
    }
  }

  /** Giving back the first taken track. */
  lemma TookBack(before: Tables, now: Tables, id: nat, segments: seq<Segment>)
    requires Took(before, now, id, segments) && segments != []
    ensures var s := segments[0];
            s.Index() < |now.Of(s.typ)| && now.Of(s.typ)[s.Index()] == id
            && Took(before, now.Set(s.typ, s.Index(), 0), id, segments[1..])
  {
    var s := segments[0];
    var i := s.Index();
    var after := now.Set(s.typ, i, 0);
    assert SegmentAt(s.typ, i) in segments && s !in segments[1..];
    assert now.Of(s.typ)[i] == id;
    forall ty: TrackType, j | 0 <= j < |before.Of(ty)|
      ensures after.Of(ty)[j] == if SegmentAt(ty, j) in segments[1..] then id else before.Of(ty)[j]
    {
      SegmentRoundTrip(ty, j);
      assert SegmentAt(ty, j) in segments <==> SegmentAt(ty, j) in segments[1..] || (ty == s.typ && j == i);
    }
  }

  lemma TookAtAll(before: Tables, now: Tables, id: nat, segments: seq<Segment>)
    requires Took(before, now, id, segments) && id != 0
    ensures now == before <==> segments == []
  {
    if segments == [] {
      forall i | 0 <= i < |before.top| ensures now.top[i] == before.top[i] {
        assert now.Of(Top)[i] == before.Of(Top)[i];
      }
      forall i | 0 <= i < |before.bottom| ensures now.bottom[i] == before.bottom[i] {
        assert now.Of(Bottom)[i] == before.Of(Bottom)[i];
      }
    } else {
      var s := segments[0];
      assert SegmentAt(s.typ, s.Index()) in segments;
      assert now.Of(s.typ)[s.Index()] == id && before.Of(s.typ)[s.Index()] == 0;
    }
  }

  function Capacity(segments: seq<Segment>): nat {
    if segments == [] then 0 else Capacity(segments[..|segments| - 1]) + segments[|segments| - 1].Capacity()
  }

  /** The request was not met before the last segment. */
  ghost predicate Tight(segments: seq<Segment>, bytes: nat) {
    segments != [] ==> Capacity(segments[..|segments| - 1]) < bytes
  }

  lemma TightAdd(segments: seq<Segment>, s: Segment, bytes: nat)
    requires Capacity(segments) < bytes
    ensures Tight(segments + [s], bytes)
  {
    assert (segments + [s])[..|segments|] == segments;
  }

  lemma CapacityAdd(segments: seq<Segment>, s: Segment)
    ensures Capacity(segments + [s]) == Capacity(segments) + s.Capacity()
  {
    assert (segments + [s])[..|segments|] == segments;
  }

  /** All tracks of `id` become free. */
  function Freed(owners: Owners, id: nat): (r: Owners)
    ensures |r| == |owners|
    ensures forall i | 0 <= i < |owners| :: r[i] == if owners[i] == id then 0 else owners[i]
  {
    seq(|owners|, i requires 0 <= i < |owners| => if owners[i] == id then 0 else owners[i])
  }

  /** Releasing what was taken restores the tables. */
  lemma ReleaseUndoesAllocate(before: Tables, after: Tables, id: nat, segments: seq<Segment>)
    requires Took(before, after, id, segments) && id != 0
    requires id !in before.top && id !in before.bottom
    ensures Freed(after.top, id) == before.top && Freed(after.bottom, id) == before.bottom
  {
    forall typ: TrackType, i | 0 <= i < |before.Of(typ)|
      ensures Freed(after.Of(typ), id)[i] == before.Of(typ)[i]
    {
      if SegmentAt(typ, i) in segments {
        var g :| 0 <= g < |segments| && segments[g] == SegmentAt(typ, i);
        SegmentRoundTrip(typ, i);
        assert before.Of(typ)[i] == 0;
      }
    }
    forall i | 0 <= i < |before.top| ensures Freed(after.top, id)[i] == before.top[i] {
      assert Freed(after.Of(Top), id)[i] == before.Of(Top)[i];
    }
    forall i | 0 <= i < |before.bottom| ensures Freed(after.bottom, id)[i] == before.bottom[i] {
      assert Freed(after.Of(Bottom), id)[i] == before.Of(Bottom)[i];
    }
  }

  /** Segment `j` names a free track of the device that no segment before it names. */
  predicate Takeable(t: Tables, zones: nat, segments: seq<Segment>, j: nat)
    requires j < |segments|
  {
    var s := segments[j];
    && s.zone < zones && s.Valid() && s.Index() < |t.Of(s.typ)|
    && t.Of(s.typ)[s.Index()] == 0 && s !in segments[..j]
  }

  /** The first stored segment whose track cannot be taken. */
  function FirstBad(t: Tables, zones: nat, segments: seq<Segment>, from: nat := 0): (b: nat)
    requires from <= |segments|
    ensures from <= b <= |segments| && forall g | from <= g < b :: Takeable(t, zones, segments, g)
    ensures b < |segments| ==> !Takeable(t, zones, segments, b)
    decreases |segments| - from
  {
    if from == |segments| || !Takeable(t, zones, segments, from) then from
    else FirstBad(t, zones, segments, from + 1)
  }

  lemma FirstBadIs(t: Tables, zones: nat, segments: seq<Segment>, j: nat)
    requires j <= |segments| && forall g | 0 <= g < j :: Takeable(t, zones, segments, g)
    requires j < |segments| ==> !Takeable(t, zones, segments, j)
    ensures FirstBad(t, zones, segments) == j
  {
  }

  /** Different free tracks of the device. */
  ghost predicate Restorable(t: Tables, zones: nat, segments: seq<Segment>) {
    && (forall g | 0 <= g < |segments| ::
          segments[g].zone < zones && segments[g].Valid() && segments[g].Index() < |t.Of(segments[g].typ)|
          && t.Of(segments[g].typ)[segments[g].Index()] == 0)
    && (forall g, h | 0 <= g < h < |segments| :: segments[g] != segments[h])
  }

  lemma AllTakeable(t: Tables, zones: nat, segments: seq<Segment>)
    requires forall g | 0 <= g < |segments| :: Takeable(t, zones, segments, g)
    ensures Restorable(t, zones, segments)
  {
    forall g, h | 0 <= g < h < |segments| ensures segments[g] != segments[h] {
      assert Takeable(t, zones, segments, h);
      assert segments[..h][g] == segments[g];
    }
    forall g | 0 <= g < |segments|
      ensures segments[g].zone < zones && segments[g].Valid() && segments[g].Index() < |t.Of(segments[g].typ)|
              && t.Of(segments[g].typ)[segments[g].Index()] == 0
    {
      assert Takeable(t, zones, segments, g);
    }
  }

  lemma RestorableIsAll(t: Tables, zones: nat, segments: seq<Segment>)
    ensures Restorable(t, zones, segments) <==> FirstBad(t, zones, segments) == |segments|
  {
    if Restorable(t, zones, segments) {
      assert forall g | 0 <= g < |segments| :: Takeable(t, zones, segments, g);
    }
    if FirstBad(t, zones, segments) == |segments| {
      AllTakeable(t, zones, segments);
    }
  }

  /** A track is free for segment `j` exactly if it was free before and no segment up to there took it. */
  lemma StillFree(before: Tables, now: Tables, id: nat, segments: seq<Segment>, j: nat)
    requires j < |segments| && Took(before, now, id, segments[..j]) && id != 0
    requires segments[j].Valid() && segments[j].Index() < |now.Of(segments[j].typ)|
    ensures segments[j].Index() < |before.Of(segments[j].typ)|
    ensures now.Of(segments[j].typ)[segments[j].Index()] == 0 <==>
            before.Of(segments[j].typ)[segments[j].Index()] == 0 && segments[j] !in segments[..j]
  {
    var s := segments[j];
    assert SegmentAt(s.typ, s.Index()) == s;
  }

  class TrackAllocator {
    var zones: nat
    var topOwner: Owners
    var bottomOwner: Owners
    var topCursor: nat
    var bottomCursor: nat

    ghost predicate Valid()
      reads this
    {
      && |topOwner| == |bottomOwner| == zones * GROUPS_PER_ZONE
      && (zones > 0 ==> topCursor < |topOwner| && bottomCursor < |bottomOwner|)
    }

    function State(): Tables
      reads this
    {
      Tables(topOwner, bottomOwner)
    }

    function Cursor(typ: TrackType): nat
      reads this
    {
      if typ.Top? then topCursor else bottomCursor
    }

    constructor (zoneCount: nat)
      ensures Valid() && zones == zoneCount
      ensures forall i | 0 <= i < |topOwner| :: topOwner[i] == 0 && bottomOwner[i] == 0
    {
      zones := zoneCount;
      topOwner := seq(zoneCount * GROUPS_PER_ZONE, _ => 0);
      bottomOwner := seq(zoneCount * GROUPS_PER_ZONE, _ => 0);
      topCursor, bottomCursor := 0, 0;
    }

    method Reset(zoneCount: nat)
      modifies this
      ensures Valid() && zones == zoneCount
      ensures forall i | 0 <= i < |topOwner| :: topOwner[i] == 0 && bottomOwner[i] == 0
    {
      zones := zoneCount;
      topOwner := seq(zoneCount * GROUPS_PER_ZONE, _ => 0);
      bottomOwner := seq(zoneCount * GROUPS_PER_ZONE, _ => 0);
      topCursor, bottomCursor := 0, 0;
    }

    /** Takes the first free track at or after the tier's cursor, wrapping around. */
    method ReserveNext(typ: TrackType, id: nat) returns (found: bool, segment: Segment)
      requires Valid() && id != 0
      modifies this
      ensures Valid() && zones == old(zones)
      ensures found <==> FreeCount(old(State()).Of(typ)) > 0
      ensures !found ==> State() == old(State())
      ensures found ==>
                && segment.typ == typ && segment.Valid() && segment.Index() < |old(State()).Of(typ)|
                && old(State()).Of(typ)[segment.Index()] == 0
                && State() == old(State()).Set(typ, segment.Index(), id)
      ensures found ==>
                && var owners, cursor, index := old(State()).Of(typ), old(Cursor(typ)), segment.Index();
                && FirstFree(owners, cursor, index) && Cursor(typ) == (index + 1) % |owners|
    {
      segment := SegmentAt(typ, 0);
      var owners := State().Of(typ);
      if owners == [] {
        return false, segment;
      }
      var index;
      found, index := FindFree(owners, Cursor(typ));
      if found {
        SegmentRoundTrip(typ, index);
        if typ.Top? {
          topOwner := topOwner[index := id];
          topCursor := (index + 1) % |owners|;
        } else {
          bottomOwner := bottomOwner[index := id];
          bottomCursor := (index + 1) % |owners|;
        }
        segment := SegmentAt(typ, index);
      }
    }

    /** The inner loop of Allocate: takes tracks of one tier until the request is met or the tier is full. */
    method FillTier(typ: TrackType, id: nat, bytes: nat, segments: seq<Segment>, ghost before: Tables)
      returns (remaining: nat, more: seq<Segment>)
      requires Valid() && id != 0 && Took(before, State(), id, segments)
      modifies this
      ensures Valid() && zones == old(zones)
      ensures Took(before, State(), id, segments + more)
      ensures Capacity(segments + more) + remaining >= Capacity(segments) + bytes
      ensures bytes <= old(FreeBytes(State().Of(typ), typ)) ==> remaining == 0
      ensures bytes > old(FreeBytes(State().Of(typ), typ)) ==> remaining == bytes - old(FreeBytes(State().Of(typ), typ))
      ensures forall other: TrackType | other != typ :: State().Of(other) == old(State()).Of(other)
      ensures forall g | 0 <= g < |more| :: more[g].typ == typ
      ensures remaining > 0 ==>
                FreeCount(State().Of(typ)) == 0 && Capacity(segments + more) + remaining == Capacity(segments) + bytes
      ensures more != [] ==> Tight(segments + more, Capacity(segments) + bytes)
    {
      hide FreeBytes, Took, Capacity, SegmentBytes, Tight, FirstFree;
      remaining, more := bytes, [];
      assert segments + more == segments;
      ghost var all := segments;
      ghost var wanted := Capacity(segments) + bytes;
      ghost var free := FreeBytes(State().Of(typ), typ);
      while remaining > 0
        invariant Valid() && zones == old(zones)
        invariant all == segments + more && Took(before, State(), id, all)
        invariant Capacity(all) + remaining >= wanted
        invariant forall other: TrackType | other != typ :: State().Of(other) == old(State()).Of(other)
        invariant forall g | 0 <= g < |more| :: more[g].typ == typ
        invariant remaining > 0 ==> Capacity(all) + remaining == wanted
        invariant more != [] ==> Tight(all, wanted)
        invariant FreeBytes(State().Of(typ), typ) <= free
        invariant if remaining > 0 then remaining + free == bytes + FreeBytes(State().Of(typ), typ) else bytes <= free
        decreases FreeCount(State().Of(typ))
      {
        ghost var now := State();
        var found, segment := ReserveNext(typ, id);
        if !found {
          FreeBytesNone(now.Of(typ), typ);
          break;
        }
        TookOne(before, now, id, all, typ, segment.Index());
        FreeCountTake(now.Of(typ), segment.Index(), id);
        FreeBytesTake(now.Of(typ), typ, segment.Index(), id);
        CapacityAdd(all, segment);
        TightAdd(all, segment, wanted);
        SegmentCapacity(segment);
        assert segments + (more + [segment]) == all + [segment];
        more, all := more + [segment], all + [segment];
        var capacity := SegmentBytes(typ);
        remaining := if remaining > capacity then remaining - capacity else 0;
      }
    }

    /** Allocation of tracks: BOTTOM then TOP for the largest level, TOP only otherwise. It succeeds exactly
        when the request fits, takes only free tracks and no more than needed, and otherwise leaves the owners as they
        were. */
    method Allocate(id: nat, bytes: nat, level: int, largestLevel: int) returns (status: Status, segments: seq<Segment>)
      requires Valid()
      modifies this
      ensures Valid() && zones == old(zones)
      ensures status.InvalidArgument? <==> id == 0 || bytes == 0
      ensures status.IOError? <==> id != 0 && bytes != 0 && bytes > old(Available(level == largestLevel))
      ensures !status.NotFound? && !status.Corruption?
      ensures !status.Ok? ==> State() == old(State()) && segments == []
      ensures status.Ok? ==> Took(old(State()), State(), id, segments) && Capacity(segments) >= bytes
      ensures status.Ok? ==> Tight(segments, bytes)
      ensures status.Ok? && level != largestLevel ==> forall g | 0 <= g < |segments| :: segments[g].typ.Top?
      ensures status.Ok? && level == largestLevel && (exists g | 0 <= g < |segments| :: segments[g].typ.Top?) ==>
                FreeCount(bottomOwner) == 0
      ensures forall g, h | 0 <= g < h < |segments| && segments[g].typ.Top? :: segments[h].typ.Top?
    {
      hide FreeBytes, FreeCount, Took, Capacity;
      segments := [];
      if id == 0 || bytes == 0 {
        return InvalidArgument, [];
      }
      var bottomFirst := level == largestLevel;
      var available := FreeBytes(topOwner, Top) + (if bottomFirst then FreeBytes(bottomOwner, Bottom) else 0);
      if bytes > available {
        return IOError, [];
      }
      ghost var before := State();
      TookNone(before, id);
      var remaining := bytes;
      if bottomFirst {
        remaining, segments := FillTier(Bottom, id, remaining, [], before);
        assert [] + segments == segments;
        assert State().Of(Top) == before.Of(Top);
      }
      CapacityNone();
      if remaining > 0 {
        var more;
        remaining, more := FillTier(Top, id, remaining, segments, before);
        assert segments + [] == segments;
        segments := segments + more;
      }
      // The undo of the source is for requests that the capacity check has already refused.
      assert remaining == 0;
      return Ok, segments;
    }

    function Available(bottomFirst: bool): nat
      reads this
    {
      FreeBytes(topOwner, Top) + (if bottomFirst then FreeBytes(bottomOwner, Bottom) else 0)
    }

    /** A stored segment names a track of this device. */
    predicate OnDevice(s: Segment)
      reads this
    {
      s.zone < zones && s.Valid()
    }

    /** Takes back tracks from stored metadata, up to the first segment whose track cannot be taken. If its track has an
        owner, or was named before, nothing changes. If it is malformed, though, the call ends without giving back the
        tracks taken before it. */
    method Restore(id: nat, segments: seq<Segment>) returns (status: Status)
      requires Valid()
      modifies this
      ensures Valid() && zones == old(zones)
      ensures id == 0 || segments == [] || zones == 0 ==> status.InvalidArgument? && State() == old(State())
      ensures id != 0 && segments != [] && zones != 0 ==> Restored(old(State()), id, segments, status)
      ensures id != 0 && segments != [] && Restorable(old(State()), old(zones), segments) ==> status.Ok?
      ensures status.Ok? ==> Took(old(State()), State(), id, segments)
      ensures !status.NotFound? && !status.Corruption?
    {
      hide Took;
      assert segments[..|segments|] == segments;
      RestorableIsAll(State(), zones, segments);
      if id == 0 || segments == [] {
        return InvalidArgument;
      }
      if topOwner == [] || bottomOwner == [] {
        assert segments[0].zone >= zones;
        return InvalidArgument;
      }
      var topLast, bottomLast;
      status, topLast, bottomLast := TakeAll(id, segments);
      if status.Ok? {
        topCursor, bottomCursor := topLast, bottomLast;
      }
    }

    /** What the first bad segment decides: the status, and whether the tracks before it stay taken. */
    ghost predicate Restored(before: Tables, id: nat, segments: seq<Segment>, status: Status)
      reads this
    {
      var b := FirstBad(before, zones, segments);
      && (status.Ok? <==> b == |segments|)
      && (status.InvalidArgument? <==> b < |segments| && !OnDevice(segments[b]))
      && (status.IOError? <==> b < |segments| && OnDevice(segments[b]))
      && Took(before, State(), id, if status.IOError? then [] else segments[..b])
      && (State() == before <==> b == 0 || (b < |segments| && OnDevice(segments[b])))
    }

    /** The loop over the stored segments. */
    method TakeAll(id: nat, segments: seq<Segment>) returns (status: Status, topLast: nat, bottomLast: nat)
      requires Valid() && id != 0 && zones != 0
      modifies `topOwner, `bottomOwner
      ensures Valid() && topLast < |topOwner| && bottomLast < |bottomOwner|
      ensures Restored(old(State()), id, segments, status)
    {
      hide Took, FirstBad;
      ghost var before := State();
      TookNone(before, id);
      assert segments[..0] == [];
      topLast, bottomLast := topCursor, bottomCursor;
      for j := 0 to |segments|
        invariant Valid() && topLast < |topOwner| && bottomLast < |bottomOwner|
        invariant Took(before, State(), id, segments[..j])
        invariant forall g | 0 <= g < j :: Takeable(before, zones, segments, g)
      {
        var segment := segments[j];
        ghost var now := State();
        var outcome := TakeStored(segment, id);
        if outcome.InvalidArgument? {
          TookAtAll(before, now, id, segments[..j]);
          FirstBadIs(before, zones, segments, j);
          return InvalidArgument, topLast, bottomLast;
        }
        StillFree(before, now, id, segments, j);
        if outcome.IOError? {
          Undo(segments[..j], id, before);
          FirstBadIs(before, zones, segments, j);
          return IOError, topLast, bottomLast;
        }
        TookOne(before, now, id, segments[..j], segment.typ, segment.Index());
        assert segments[..j + 1] == segments[..j] + [segment];
        if segment.typ.Top? {
          topLast := (segment.Index() + 1) % |topOwner|;
        } else {
          bottomLast := (segment.Index() + 1) % |bottomOwner|;
        }
      }
      FirstBadIs(before, zones, segments, |segments|);
      assert segments[..|segments|] == segments;
      TookAtAll(before, State(), id, segments);
      status := Ok;
    }

    /** The checks on one stored segment; takes its track if it is free. */
    method TakeStored(segment: Segment, id: nat) returns (status: Status)
      requires Valid()
      modifies `topOwner, `bottomOwner
      ensures Valid()
      ensures status.InvalidArgument? <==> !OnDevice(segment)
      ensures !status.InvalidArgument? ==> segment.Index() < |old(State()).Of(segment.typ)|
      ensures status.IOError? <==> OnDevice(segment) && old(State()).Of(segment.typ)[segment.Index()] != 0
      ensures !status.Ok? ==> State() == old(State())
      ensures status.Ok? ==> State() == old(State()).Set(segment.typ, segment.Index(), id)
      ensures !status.NotFound? && !status.Corruption?
    {
      if segment.zone >= zones || segment.group >= GROUPS_PER_ZONE {
        return InvalidArgument;
      }
      var top := segment.typ.Top?;
      var base := segment.zone * ZONE_SECTORS + segment.group * GROUP_SECTORS;
      var expectedStart := base + (if top then 0 else TOP_SECTORS);
      var expectedLength := if top then TOP_SECTORS else BOTTOM_SECTORS;
      SegmentExpected(segment, expectedStart, expectedLength);
      if segment.sectorStart != expectedStart || segment.sectorLength != expectedLength {
        return InvalidArgument;
      }
      var index := segment.Index();
      assert index < zones * GROUPS_PER_ZONE;
      if State().Of(segment.typ)[index] != 0 {
        return IOError;
      }
      if top {
        topOwner := topOwner[index := id];
      } else {
        bottomOwner := bottomOwner[index := id];
      }
      return Ok;
    }

    /** Gives back the reserved tracks that are still `id`'s. */
    method Undo(reserved: seq<Segment>, id: nat, ghost before: Tables)
      requires Valid() && id != 0 && Took(before, State(), id, reserved)
      modifies `topOwner, `bottomOwner
      ensures Valid() && State() == before
    {
      hide Took;
      assert reserved[0..] == reserved;
      for g := 0 to |reserved|
        invariant Valid() && zones == old(zones) && Took(before, State(), id, reserved[g..])
      {
        TookBack(before, State(), id, reserved[g..]);
        assert reserved[g..][0] == reserved[g] && reserved[g..][1..] == reserved[g + 1..];
        var s := reserved[g];
        if s.typ.Top? {
          if s.Index() < |topOwner| && topOwner[s.Index()] == id {
            topOwner := topOwner[s.Index() := 0];
          }
        } else {
          if s.Index() < |bottomOwner| && bottomOwner[s.Index()] == id {
            bottomOwner := bottomOwner[s.Index() := 0];
          }
        }
      }
      assert reserved[|reserved|..] == [];
      TookAtAll(before, State(), id, []);
    }

    /** Frees every track of `id`, and no other. */
    method Release(id: nat) returns (status: Status)
      requires Valid()
      modifies this
      ensures Valid() && zones == old(zones)
      ensures id == 0 ==> status.InvalidArgument? && State() == old(State())
      ensures id != 0 ==>
                && topOwner == Freed(old(topOwner), id) && bottomOwner == Freed(old(bottomOwner), id)
                && (status.Ok? <==> id in old(topOwner) || id in old(bottomOwner)) && (status.Ok? || status.NotFound?)
    {
      if id == 0 {
        return InvalidArgument;
      }
      var found := false;
      for i := 0 to |topOwner|
        invariant Valid() && zones == old(zones) && bottomOwner == old(bottomOwner) && |topOwner| == |old(topOwner)|
        invariant forall j | 0 <= j < |topOwner| ::
                    topOwner[j] == if j < i then Freed(old(topOwner), id)[j] else old(topOwner)[j]
        invariant found <==> id in old(topOwner)[..i]
      {
        if topOwner[i] == id {
          topOwner := topOwner[i := 0];
          found := true;
        }
      }
      assert topOwner == Freed(old(topOwner), id);
      assert old(topOwner)[..|topOwner|] == old(topOwner);
      for i := 0 to |bottomOwner|
        invariant Valid() && zones == old(zones) && topOwner == Freed(old(topOwner), id)
        invariant |bottomOwner| == |old(bottomOwner)|
        invariant forall j | 0 <= j < |bottomOwner| ::
                    bottomOwner[j] == if j < i then Freed(old(bottomOwner), id)[j] else old(bottomOwner)[j]
        invariant found <==> id in old(topOwner) || id in old(bottomOwner)[..i]
      {
        if bottomOwner[i] == id {
          bottomOwner := bottomOwner[i := 0];
          found := true;
        }
      }
      assert bottomOwner == Freed(old(bottomOwner), id);
      assert old(bottomOwner)[..|bottomOwner|] == old(bottomOwner);
      status := if found then Ok else NotFound;
    }
  }

  /** A run that leaks a track: a free one is followed by a malformed one. */
  method RestoreLeaks() returns (a: TrackAllocator, status: Status)
    ensures fresh(a) && a.Valid() && status.InvalidArgument? && |a.topOwner| > 0 && a.topOwner[0] == 5
  {
    hide Took;
    a := new TrackAllocator(1);
    var good, bad := SegmentAt(Top, 0), Segment(1, 0, Top, 0, 0);
    ghost var before := a.State();
    SegmentRoundTrip(Top, 0);
    FirstBadIs(before, 1, [good, bad], 1);
    status := a.Restore(5, [good, bad]);
    assert [good, bad][..1] == [good];
    TookFirst(before, a.State(), 5, good);
  }

  lemma TookFirst(before: Tables, now: Tables, id: nat, s: Segment)
    requires Took(before, now, id, [s]) && s == SegmentAt(Top, 0)
    ensures |now.top| > 0 && now.top[0] == id
  {
    SegmentRoundTrip(Top, 0);
    assert [s][0].Index() < |before.Of(Top)|;
    assert now.Of(Top)[0] == id;
  }

  lemma CapacityNone()
    ensures Capacity([]) == 0
  {
  }

  lemma SegmentExpected(s: Segment, start: nat, length: nat)
    requires s.group < GROUPS_PER_ZONE && length == SectorsOf(s.typ)
    requires start == s.zone * ZONE_SECTORS + s.group * GROUP_SECTORS + (if s.typ.Top? then 0 else TOP_SECTORS)
    ensures s.Valid() <==> s.sectorStart == start && s.sectorLength == length
  {
  }

  lemma SegmentCapacity(s: Segment)
    requires s.Valid()
    ensures s.Capacity() == SegmentBytes(s.typ)
  {
  }
}
