/** Track geometry of an interlaced-recording device: every group of sectors is a TOP track followed
    by a BOTTOM track, 64 groups to a zone. */
module KvimrTracks {

  const GROUPS_PER_ZONE: nat := 64
  const ZONE_SECTORS: nat := 524288
  const GROUP_SECTORS: nat := 8192
  const TOP_SECTORS: nat := 3648
  const BOTTOM_SECTORS: nat := 4544
  const SECTOR_SIZE: nat := 512

  datatype TrackType = Top | Bottom

  datatype Segment = Segment(zone: nat, group: nat, typ: TrackType, sectorStart: nat, sectorLength: nat)
  {
    /** Index in the owner table of this track's tier. */
    function Index(): nat {
      zone * GROUPS_PER_ZONE + group
    }

    /** The segment is what the allocator hands out for its track. */
    predicate Valid() {
      group < GROUPS_PER_ZONE && this == SegmentAt(typ, Index())
    }

    /** First byte of the track on the device. */
    function Base(): nat {
      sectorStart * SECTOR_SIZE
    }

    function Capacity(): nat {
      sectorLength * SECTOR_SIZE
    }
  }

  function SectorsOf(typ: TrackType): nat {
    if typ.Top? then TOP_SECTORS else BOTTOM_SECTORS
  }

  function SegmentBytes(typ: TrackType): nat {
    SectorsOf(typ) * SECTOR_SIZE
  }

  function SegmentAt(typ: TrackType, index: nat): Segment {
    var zone := index / GROUPS_PER_ZONE;
    var group := index % GROUPS_PER_ZONE;
    var groupStart := zone * ZONE_SECTORS + group * GROUP_SECTORS;
    Segment(zone, group, typ, groupStart + (if typ.Top? then 0 else TOP_SECTORS), SectorsOf(typ))
  }

  /** A track is found again from its segment, and its sectors follow from its index. */
  lemma SegmentRoundTrip(typ: TrackType, index: nat)
    ensures SegmentAt(typ, index).Index() == index && SegmentAt(typ, index).Valid()
    ensures SegmentAt(typ, index).sectorStart == index * GROUP_SECTORS + (if typ.Top? then 0 else TOP_SECTORS)
  {
  }

  /** Different tracks share no byte of the device. */
  lemma TracksDisjoint(a: Segment, b: Segment)
    requires a.Valid() && b.Valid() && (a.typ != b.typ || a.Index() != b.Index())
    ensures a.Base() + a.Capacity() <= b.Base() || b.Base() + b.Capacity() <= a.Base()
  {
    SegmentRoundTrip(a.typ, a.Index());
    SegmentRoundTrip(b.typ, b.Index());
  }

  /** A track of a configured zone lies on the device. */
  lemma TrackOnDevice(a: Segment, zones: nat)
    requires a.Valid() && a.zone < zones
    ensures a.Base() + a.Capacity() <= zones * ZONE_SECTORS * SECTOR_SIZE
  {
    SegmentRoundTrip(a.typ, a.Index());
    assert a.Index() < zones * GROUPS_PER_ZONE;
  }

  /** Whole sectors: capacities and bases are multiples of the sector size. */
  lemma WholeSectors(a: Segment)
    ensures a.Base() % SECTOR_SIZE == 0 && a.Capacity() % SECTOR_SIZE == 0
  {
  }

  /** The tracks tile the device: every byte of the configured zones lies in exactly one of them, the one of its group
      that its place in the group tells. */
  lemma TracksTile(x: nat, zones: nat)
    requires x < zones * ZONE_SECTORS * SECTOR_SIZE
    ensures var sector := x / SECTOR_SIZE;
            var typ := if sector % GROUP_SECTORS < TOP_SECTORS then Top else Bottom;
            var s := SegmentAt(typ, sector / GROUP_SECTORS);
            s.Valid() && s.zone < zones && s.Base() <= x < s.Base() + s.Capacity()
  {
    var sector := x / SECTOR_SIZE;
    var index := sector / GROUP_SECTORS;
    SegmentRoundTrip(if sector % GROUP_SECTORS < TOP_SECTORS then Top else Bottom, index);
    assert sector < zones * ZONE_SECTORS;
    assert index < zones * GROUPS_PER_ZONE;
  }
}
