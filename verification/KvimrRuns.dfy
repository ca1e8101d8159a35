/** Runs of the store after which a promise does not hold. */
module KvimrRuns {
  import opened KvimrTracks
  import opened KvimrAllocator
  import opened KvimrPayload
  import opened KvimrRmw
  import opened KvimrFiles
  import opened KvimrMetadata
  import opened KvimrRecovery
  import opened KvimrStore

  /** The directory "d", two files in it, and names elsewhere. */
  const DB: Name := [0x64]
  const FIRST: Name := [0x64, SLASH, 0x31]
  const SECOND: Name := [0x64, SLASH, 0x32]
  const DOUBLE: Name := [0x64, SLASH, SLASH, 0x31]
  const OUTSIDE: Name := [0x31]
  const UNKNOWN: Name := [0x31, DOT]

  lemma NamesDiffer()
    ensures FIRST != SECOND && UNKNOWN != FIRST
  {
    assert FIRST[2] != SECOND[2];
    assert |UNKNOWN| != |FIRST|;
  }

  /** A store without SSTables has free tracks. */
  lemma EmptyHasRoom(t: Tables, s2t: map<nat, seq<Segment>>)
    requires OwnersAgree(map[], t, s2t) && |t.top| > 0
    ensures FreeBytes(t.top, Top) >= SegmentBytes(Top)
  {
    forall i: nat | i < |t.top| ensures t.top[i] == 0 {
      if t.Of(Top)[i] != 0 {
        var _ := HasTrackFile(map[], t, Top, i);
      }
    }
    FreeCountZero(t.top);
    assert t.top[0] == 0;
  }

  method OpenEmpty(dev: Bytes) returns (store: Store)
    requires |dev| >= ZONE_SECTORS * SECTOR_SIZE
    ensures fresh(store) && fresh(store.allocator) && store.Valid() && store.persistence && store.files == map[]
    ensures store.device == dev && store.allocator.zones == 1 && store.dbname == DB
    ensures FreeBytes(store.allocator.topOwner, Top) >= SegmentBytes(Top)
  {
    hide Store.DescribedBy, Store.Reopened, OwnersAgree, FreeBytes, Decode, SegmentBytes;
    store := new Store(1, dev);
    var _ := store.Initialize(DB, 1, store.saved);
    EmptyHasRoom(store.allocator.State(), store.s2t);
  }

  /** One SSTable registered and written, with room for it. */
  method OneWriter(dev: Bytes, name: Name) returns (store: Store)
    requires |dev| >= ZONE_SECTORS * SECTOR_SIZE
    ensures fresh(store) && fresh(store.allocator) && store.Valid() && store.persistence
    ensures store.device == dev && store.allocator.zones == 1 && store.dbname == DB
    ensures store.files == map[name := SSTable(1, 0, 1, false, [7], [], [Update(0, [7])])]
    ensures !NoRoom(store.files[name], store.allocator.State())
  {
    hide OwnersAgree, AllOk, FreeBytes;
    store := OpenEmpty(dev);
    store.RegisterSSTable(name, 1, 0, 1);
    var _ := store.Write(name, [7]);
    assert store.files[name].data == [7] && store.files[name].pending == [Update(0, [7])];
    assert store.files == map[name := store.files[name]];
  }

  // ---- What fits the fields of the metadata

  lemma {:induction false} CapacityGrows(tracks: seq<Segment>)
    requires forall g | 0 <= g < |tracks| :: tracks[g].Valid()
    ensures Capacity(tracks) >= |tracks|
    decreases |tracks|
  {
    if tracks != [] {
      var last := tracks[|tracks| - 1];
      assert last.sectorLength == SectorsOf(last.typ);
      CapacityGrows(tracks[..|tracks| - 1]);
    }
  }

  /** Tracks of a device with one zone, just enough for one byte. */
  lemma TracksFit(tracks: seq<Segment>, t: Tables, id: nat)
    requires Tight(tracks, 1) && |t.top| == |t.bottom| == GROUPS_PER_ZONE
    requires forall g | 0 <= g < |tracks| :: OwnedAs(t, tracks[g], id)
    ensures |tracks| <= 1 && forall g | 0 <= g < |tracks| :: TrackFits(tracks[g])
  {
    if tracks != [] {
      var most := tracks[..|tracks| - 1];
      forall g | 0 <= g < |most| ensures most[g].Valid() {
        assert OwnedAs(t, tracks[g], id);
      }
      CapacityGrows(most);
      assert OwnedAs(t, tracks[0], id);
      assert Pow256(4) == 0x1_0000_0000 && Pow256(8) == 0x1_0000_0000_0000_0000;
      SegmentRoundTrip(tracks[0].typ, tracks[0].Index());
    }
  }

  lemma SmallFile(db: Name, n: Name, f: SSTable)
    requires |n| <= 4 && f.number < 10 && -1 <= f.level < 10 && -1 <= f.largest < 10 && |f.data| < 10 && |f.tracks| <= 1
    requires forall g | 0 <= g < |f.tracks| :: TrackFits(f.tracks[g])
    ensures RecordFits(RecordOf(db, n, f))
  {
    hide TrackFits;
    assert Pow256(4) == 0x1_0000_0000 && Pow256(8) == 0x1_0000_0000_0000_0000;
    if db <= n {
      StripShorter(n[|db|..]);
    }
  }

  /** The metadata of a store with few and small SSTables can be read back. */
  lemma SmallDescribed(store: Store)
    requires store.Valid() && store.UpToDate() && Small(store.dbname, store.files) && store.allocator.zones == 1
    ensures store.DescribedBy(store.saved, 1)
  {
    hide OwnersAgree, AllOk, Small, Writable, Encode;
    assert Pow256(4) == 0x1_0000_0000;
    SmallWritable(1, store.dbname, store.saved.names, store.files);
  }

  /** A placed SSTable of one byte in a store with one zone. */
  lemma PlacedSmall(store: Store, n: Name)
    requires store.Valid() && store.allocator.zones == 1 && n in store.files && |n| <= 4
    requires var f := store.files[n];
             f.number == 1 && f.level == 0 && f.largest == 1 && |f.data| == 1 && Tight(f.tracks, 1)
    ensures RecordFits(RecordOf(store.dbname, n, store.files[n]))
  {
    hide RecordFits, TrackFits;
    TracksFit(store.files[n].tracks, store.allocator.State(), 1);
    SmallFile(store.dbname, n, store.files[n]);
  }

  // ---- Recovery

  /** A synced SSTable can be lost to one that is still being written: the metadata also list the unplaced SSTable,
      and then the store does not open again. */
  method SyncThenReopenFails(dev: Bytes) returns (synced: Status, reopened: Status)
    requires |dev| >= ZONE_SECTORS * SECTOR_SIZE
    ensures synced.Ok? && !reopened.Ok?
  {
    hide OwnersAgree, AllOk, NoRoom, Describes, RecordFits, Tight, Store.DescribedBy, RecordOf;
    NamesDiffer();
    var store := OneWriter(dev, FIRST);
    var _ := store.Write(SECOND, [7]);
    synced := store.Sync(FIRST);
    PlacedSmall(store, FIRST);
    SmallFile(DB, SECOND, store.files[SECOND]);
    assert store.files.Keys == {FIRST, SECOND} && |store.files| == |store.files.Keys|;
    assert Pow256(4) == 0x1_0000_0000;
    SmallDescribed(store);
    assert !store.files[SECOND].Fits();
    reopened := store.Initialize(DB, 1, store.saved);
  }

  /** An SSTable whose name is not in the directory of the database is synced, the store opens again, and the name is
      unknown. */
  method NameIsLost(dev: Bytes) returns (synced: Status, reopened: Status, found: Status)
    requires |dev| >= ZONE_SECTORS * SECTOR_SIZE
    ensures synced.Ok? && reopened.Ok? && found.NotFound?
  {
    hide OwnersAgree, AllOk, NoRoom, Describes, RecordFits, Tight, Store.DescribedBy, RecordOf;
    var store := OneWriter(dev, OUTSIDE);
    synced := store.Sync(OUTSIDE);
    PlacedSmall(store, OUTSIDE);
    assert store.files.Keys == {OUTSIDE} && |store.files| == |store.files.Keys|;
    assert Pow256(4) == 0x1_0000_0000;
    SmallDescribed(store);
    ghost var was := store.files;
    reopened := store.Initialize(DB, 1, store.saved);
    assert Homes(DB, was) == {Home(DB, OUTSIDE)};
    var bytes;
    found, bytes := store.Read(OUTSIDE, 0, 1);
  }

  /** "d//1" and "d/1" come back as one name. */
  lemma SameHome()
    ensures DOUBLE != FIRST && Less(DOUBLE, FIRST) && Home(DB, DOUBLE) == Home(DB, FIRST)
  {
    var a, b := DOUBLE[1..], FIRST[1..];
    assert DOUBLE[..1] == DB == FIRST[..1];
    assert a[1..][1..] == [0x31] == b[1..] && a[1..][0] == SLASH;
    assert StripSlashes(b[1..]) == b[1..];
    assert StripSlashes(b) == b[1..] && StripSlashes(a[1..]) == b[1..] && StripSlashes(a) == b[1..];
    assert Less(a[1..], b[1..]);
    assert Less(a, b);
  }

  /** An SSTable with tracks loses its name to another one: the store opens again, and its tracks are lost. */
  method NamesCollide(dev: Bytes) returns (store: Store, synced: Status, reopened: Status)
    requires |dev| >= ZONE_SECTORS * SECTOR_SIZE
    ensures fresh(store) && synced.Ok? && reopened.Ok? && !store.Valid()
  {
    hide OwnersAgree, AllOk, NoRoom, Describes, RecordFits, Tight, Store.DescribedBy, RecordOf, Home, Less;
    SameHome();
    store := OneWriter(dev, DOUBLE);
    store.RegisterSSTable(FIRST, 2, 0, 1);
    synced := store.Sync(DOUBLE);
    PlacedSmall(store, DOUBLE);
    SmallFile(DB, FIRST, store.files[FIRST]);
    assert store.files.Keys == {DOUBLE, FIRST} && |store.files| == |store.files.Keys|;
    assert Pow256(4) == 0x1_0000_0000;
    SmallDescribed(store);
    ghost var was := store.files;
    assert was[DOUBLE].Fits() && was[FIRST].Fits();
    reopened := store.Initialize(DB, 1, store.saved);
    assert !PlacedLast(DB, was);
  }

  // ---- Numbers

  /** Two SSTables registered under one number. */
  method SameNumber(dev: Bytes) returns (store: Store)
    requires |dev| >= ZONE_SECTORS * SECTOR_SIZE
    ensures fresh(store) && !store.Valid()
  {
    hide OwnersAgree, AllOk, FreeBytes;
    NamesDiffer();
    store := OpenEmpty(dev);
    store.RegisterSSTable(FIRST, 1, 0, 1);
    store.RegisterSSTable(SECOND, 1, 0, 1);
  }

  /** Unlinking the unknown name "1." while a placed SSTable has the number 1. */
  method WrongUnlink(dev: Bytes) returns (store: Store, status: Status)
    requires |dev| >= ZONE_SECTORS * SECTOR_SIZE
    ensures fresh(store) && status.Ok? && !store.Valid()
  {
    hide OwnersAgree, AllOk, NoRoom, FileNumber, Tight, Store.Saved, Store.UpToDate, Store.Durable;
    NamesDiffer();
    store := OneWriter(dev, FIRST);
    var _ := store.Sync(FIRST);
    UnknownNumber();
    status := store.Unlink(UNKNOWN);
  }

  lemma UnknownNumber()
    ensures FileNumber(UNKNOWN) == 1
  {
    var digit: Name := [0x31];
    assert UNKNOWN[..1] == digit && digit[..0] == [] && UNKNOWN[0..] == UNKNOWN;
    assert BaseStart(digit) == 0;
    assert BaseStart(UNKNOWN) == 0;
    assert UNKNOWN[1..] == [DOT];
    assert UpToDot(UNKNOWN) == digit;
    assert Digits(digit) == 1;
  }
}
