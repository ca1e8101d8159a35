/** The KVIMR store: SSTables kept in memory, placed on tracks and persisted to the device. */
module KvimrStore {
  import opened Options
  import opened Extrema
  import opened KvimrTracks
  import opened KvimrAllocator
  import opened KvimrPayload
  import opened KvimrRmw
  import opened KvimrApply
  import opened KvimrPersist
  import opened KvimrFiles
  import opened KvimrFileSteps
  import opened KvimrMetadata
  import opened KvimrRecovery

  const UINT64: nat := 0x1_0000_0000_0000_0000

  const DOT: Byte := 0x2E
  const ZERO: Byte := 0x30
  const NINE: Byte := 0x39

  /** Position after the last path separator. */
  function BaseStart(name: Name): (r: nat)
    ensures r <= |name|
  {
    if name == [] then 0
    else if name[|name| - 1] == SLASH || name[|name| - 1] == BACKSLASH then |name|
    else BaseStart(name[..|name| - 1])
  }

  /** The number before the first dot of the file name, 0 if there is none. */
  function FileNumber(name: Name): nat {
    var base := name[BaseStart(name)..];
    var digits := UpToDot(base);
    if digits == base || digits == [] then 0 else Decimal(digits)
  }

  function UpToDot(s: Name): (r: Name)
    ensures r <= s
  {
    if s == [] || s[0] == DOT then [] else [s[0]] + UpToDot(s[1..])
  }

  predicate IsDigit(c: Byte) {
    ZERO <= c <= NINE
  }

  /** 0 if a character is not a digit; 64-bit arithmetic. */
  function Decimal(s: Name): nat {
    if exists i | 0 <= i < |s| :: !IsDigit(s[i]) then 0 else Digits(s)
  }

  function Digits(s: Name): nat
    requires forall i | 0 <= i < |s| :: IsDigit(s[i])
  {
    if s == [] then 0
    else
      var last := s[|s| - 1];
      assert IsDigit(last);
      (Digits(s[..|s| - 1]) * 10 + (last as int - ZERO as int)) % UINT64
  }

  /** A number in decimal digits. */
  function Text(n: nat): (r: Name)
    ensures r != [] && forall i | 0 <= i < |r| :: IsDigit(r[i])
  {
    if n < 10 then [(48 + n) as Byte] else Text(n / 10) + [(48 + n % 10) as Byte]
  }

  lemma {:induction false} DigitsOfText(n: nat)
    ensures Digits(Text(n)) == n % UINT64
    decreases n
  {
    if n < 10 {
      assert Text(n)[..0] == [];
    } else {
      DigitsOfText(n / 10);
      var t := Text(n / 10);
      assert Text(n)[..|t|] == t;
      TenTimes(n / 10, n % 10);
    }
  }

  lemma TenTimes(a: nat, d: nat)
    ensures (a % UINT64 * 10 + d) % UINT64 == (a * 10 + d) % UINT64
  {
    var q := a / UINT64;
    assert a * 10 + d == (a % UINT64 * 10 + d) + q * 10 * UINT64;
    AddMultiple(a % UINT64 * 10 + d, q * 10);
  }

  lemma {:induction false} AddMultiple(x: nat, q: nat)
    ensures (x + q * UINT64) % UINT64 == x % UINT64
  {
    if q > 0 {
      AddMultiple(x, q - 1);
      assert x + q * UINT64 == (x + (q - 1) * UINT64) + UINT64;
    }
  }

  predicate NoSeparator(s: Name) {
    forall i | 0 <= i < |s| :: s[i] != SLASH && s[i] != BACKSLASH
  }

  lemma {:induction false} BaseAfter(dir: Name, base: Name)
    requires NoSeparator(base) && (dir == [] || dir[|dir| - 1] == SLASH || dir[|dir| - 1] == BACKSLASH)
    ensures BaseStart(dir + base) == |dir|
    decreases |base|
  {
    if base == [] {
      assert dir + base == dir;
    } else {
      var n := |base| - 1;
      assert (dir + base)[..|dir| + n] == dir + base[..n] && (dir + base)[|dir| + n] == base[n];
      BaseAfter(dir, base[..n]);
    }
  }

  lemma {:induction false} DotAfter(digits: Name, rest: Name)
    requires forall i | 0 <= i < |digits| :: digits[i] != DOT
    ensures UpToDot(digits + ([DOT] + rest)) == digits
    decreases |digits|
  {
    var s := digits + ([DOT] + rest);
    if digits != [] {
      assert s[1..] == digits[1..] + ([DOT] + rest);
      DotAfter(digits[1..], rest);
    }
  }

  /** The number is found again in a file name made from it, up to 64 bits, in any directory. */
  lemma NumberOfName(dir: Name, n: nat, rest: Name)
    requires NoSeparator(rest) && (dir == [] || dir[|dir| - 1] == SLASH || dir[|dir| - 1] == BACKSLASH)
    ensures FileNumber(dir + (Text(n) + ([DOT] + rest))) == n % UINT64
  {
    var digits := Text(n);
    var base := digits + ([DOT] + rest);
    BaseAfter(dir, base);
    assert (dir + base)[|dir|..] == base;
    DotAfter(digits, rest);
    DigitsOfText(n);
  }

  /** What the store looked like when its metadata were last written. */
  datatype Snapshot = Snapshot(
    db: Name, zones: nat, names: seq<Name>, files: Files, tables: Tables, map_: map<nat, seq<Segment>>)

  class Store {
    var files: Files
    var s2t: map<nat, seq<Segment>>
    const allocator: TrackAllocator
    var device: Bytes
    var persistence: bool
    var mode: Mode
    var counters: Counters
    var dbname: Name
    var metadata: Option<Bytes>
    ghost var saved: Snapshot

    /** Every SSTable's tracks hold its persisted prefix, no two SSTables share a track, and no track is lost. */
    ghost predicate Valid()
      reads `files, `s2t, `device, allocator
    {
      && allocator.Valid()
      && |device| >= allocator.zones * ZONE_SECTORS * SECTOR_SIZE
      && AllOk(files, device)
      && OwnersAgree(files, allocator.State(), s2t)
    }

    /** The metadata on disk describe SSTables whose persisted bytes are on the device. */
    ghost predicate Durable()
      reads `metadata, `device, `saved
    {
      metadata.Some? ==>
        && Describes(metadata.value, saved.zones, saved.db, saved.names, saved.files)
        && Consistent(saved.files, saved.tables, saved.map_, device, saved.zones)
    }

    /** The metadata are those of the store as it is. */
    ghost predicate UpToDate()
      reads this, allocator
    {
      && Durable() && metadata.Some?
      && saved.files == files && saved.db == dbname && saved.zones == allocator.zones
      && saved.tables == allocator.State()
    }

    /** An empty store over a device that has room for the zones. */
    constructor (zones: nat, dev: Bytes)
      requires |dev| >= zones * ZONE_SECTORS * SECTOR_SIZE
      ensures Valid() && Durable() && files == map[] && !persistence && metadata == None
      ensures fresh(allocator) && device == dev && allocator.zones == zones
    {
      files, s2t := map[], map[];
      allocator := new TrackAllocator(zones);
      device := dev;
      persistence, mode := false, Naive;
      counters := Counters(0, 0, 0, 0, 0, 0, 0, 0, 0, 0, 0, 0);
      dbname, metadata := [], None;
      saved := Snapshot([], 0, [], map[], Tables([], []), map[]);
      new;
      NoFilesAgree(allocator.State());
    }

    method RegisterSSTable(name: Name, number: nat, level: int, largest: int)
      requires Valid()
      modifies `files, `s2t
      ensures name in files && files[name] ==
                (if name in old(files) then old(files)[name] else NEW_SSTABLE)
                .(number := number, level := level, largest := largest)
      ensures files == old(files)[name := files[name]]
      ensures Valid() <==> RegisterOk(old(files), name, number)
    {
      hide FileOk, OwnersAgree;
      var f := if name in files then files[name] else NEW_SSTABLE;
      f := f.(number := number, level := level, largest := largest);
      SameFileOk(device, name, f, files);
      ghost var s2t0 := s2t;
      if number !in s2t {
        s2t := s2t[number := []];
      }
      RegisterOwners(files, allocator.State(), s2t0, s2t, name, f);
      files := files[name := f];
    }

    /** Starts an SSTable over: its tracks become free. */
    method BeginWrite(name: Name)
      requires Valid()
      modifies `files, `s2t, allocator
      ensures Valid() && allocator.zones == old(allocator.zones)
      ensures name !in old(files) ==> files == old(files) && allocator.State() == old(allocator.State())
      ensures name in old(files) ==>
                files == old(files)[name := old(files)[name].(data := [], tracks := [], pending := [], synced := false)]
    {
      hide FileOk, OwnersAgree;
      if name in files {
        var f := files[name];
        var f' := f.(data := [], tracks := [], pending := [], synced := false);
        EmptyFileOk(f', device);
        if f.tracks != [] {
          TracksNumbered(files, allocator.State(), s2t, name);
          ReleaseOwners(files, allocator.State(), s2t, name, f.number, files[name := f']);
          var _ := allocator.Release(f.number);
          s2t := s2t - {f.number};
        } else {
          SameOwners(files, allocator.State(), s2t, name, f');
        }
        files := files[name := f'];
      }
    }

    method Write(name: Name, bytes: Bytes) returns (status: Status)
      requires Valid()
      modifies `files
      ensures Valid() && status.Ok?
      ensures name in files && files == old(files)[name := files[name]]
      ensures files[name].data == (if name in old(files) then old(files)[name].data else []) + bytes
      ensures var f := if name in old(files) then old(files)[name] else NEW_SSTABLE;
              && files[name] == f.(data := files[name].data, pending := files[name].pending, synced := false)
              && files[name].pending == f.pending + if bytes == [] then [] else [Update(|f.data|, bytes)]
    {
      hide FileOk, OwnersAgree;
      var f := if name in files then files[name] else NEW_SSTABLE;
      NewFileOk(device);
      AppendOk(f, bytes, device);
      SameOwners(files, allocator.State(), s2t, name, Appended(f, bytes));
      files := files[name := Appended(f, bytes)];
      status := Ok;
    }

    method Read(name: Name, offset: nat, n: nat) returns (status: Status, result: Bytes)
      ensures status == if name in files then Ok else NotFound
      ensures name in files ==>
                && |result| == Min(n, Max(0, |files[name].data| - offset))
                && forall i | 0 <= i < |result| :: result[i] == files[name].data[offset + i]
    {
      if name !in files {
        return NotFound, [];
      }
      var data := files[name].data;
      if offset > |data| {
        return Ok, [];
      }
      var length := Min(n, |data| - offset);
      return Ok, data[offset..offset + length];
    }

    /** Places an SSTable on tracks. */
    method Place(name: Name) returns (status: Status)
      requires Valid() && name in files && files[name].tracks == [] && files[name].data != []
      modifies `files, `s2t, allocator
      ensures Valid() && allocator.zones == old(allocator.zones)
      ensures status.InvalidArgument? <==> old(files)[name].number == 0
      ensures status.IOError? <==> old(files)[name].number != 0 && NoRoom(old(files)[name], old(allocator.State()))
      ensures !status.NotFound? && !status.Corruption?
      ensures !status.Ok? ==> files == old(files) && allocator.State() == old(allocator.State()) && s2t == old(s2t)
      ensures status.Ok? ==>
                && files.Keys == old(files).Keys
                && files == old(files)[name := old(files)[name].(tracks := files[name].tracks)]
                && files[name].tracks != [] && files[name].Fits() && Tight(files[name].tracks, |files[name].data|)
    {
      hide FileOk, OwnersAgree, Took, TracksOk, NumbersDiffer, TracksOwned, NoneLost, MapAgrees;
      var f := files[name];
      ghost var t := allocator.State();
      var segments;
      status, segments := allocator.Allocate(f.number, |f.data|, f.level, f.largest);
      if !status.Ok? {
        return;
      }
      CapacityIsStart(segments);
      var f' := f.(tracks := segments);
      TookTracksOk(t, allocator.State(), f.number, segments, allocator.zones, |device|);
      PlacedOk(f, segments, device);
      OthersNumbered(files, t, s2t, name);
      AllocateOwners(files, t, allocator.State(), s2t, name, f');
      files := files[name := f'];
      s2t := s2t[f.number := segments];
    }

    /** Applies the pending updates of a placed SSTable to the device. */
    method Apply(name: Name) returns (status: Status)
      requires Valid() && name in files && files[name].tracks != []
      modifies `device, `counters
      ensures |device| == |old(device)|
      ensures status == if files[name].Fits() then Ok else IOError
      ensures !status.Ok? ==> device == old(device) && counters == old(counters)
      ensures status.Ok? ==>
                && FileOk(Applied(files[name]), device)
                && (forall m | m in files && m != name :: FileOk(files[m], device))
                && counters == ApplyTally(mode, old(counters), files[name])
    {
      hide OwnersAgree, Holds, TracksOk, Contiguous, Written;
      var f := files[name];
      var ok, dev', c' := ApplyPendingUpdates(mode, device, counters, f.tracks, f.pending, f.data, f.Persisted());
      if !ok {
        return IOError;
      }
      AppliedOk(f, device, dev');
      OwnersParts(files, allocator.State(), s2t);
      WrittenOutside(device, dev', f.tracks, f.data, f.Persisted());
      WriteKeepsOthers(files, allocator.State(), name, device, dev');
      device, counters := dev', c';
      status := Ok;
    }

    /** Writes the metadata of all SSTables. */
    method PersistSnapshot(ghost map_: map<nat, seq<Segment>>)
      requires Consistent(files, allocator.State(), map_, device, allocator.zones)
      modifies `metadata, `saved
      ensures UpToDate()
    {
      hide Consistent, Encode, ListsBut, RecordsOf, RecordOf;
      var records: seq<Record> := [];
      var rest := files.Keys;
      ghost var names: seq<Name> := [];
      assert ListsBut(names, files, rest) && RecordsOf(dbname, names, files) == [] by {
        NoneListed(dbname, files);
      }
      while rest != {}
        invariant rest <= files.Keys && forall k | 0 <= k < |names| :: names[k] in files
        invariant ListsBut(names, files, rest) && records == RecordsOf(dbname, names, files)
        decreases |rest|
      {
        ghost var least := LeastExists(rest);
        var n :| n in rest && IsLeast(n, rest);
        ListsNext(names, files, rest, n);
        RecordsNext(dbname, names, files, rest, n);
        records := records + [RecordOf(dbname, n, files[n])];
        names := names + [n];
        rest := rest - {n};
      }
      metadata := Some(Encode(allocator.zones, records));
      saved := Snapshot(dbname, allocator.zones, names, files, allocator.State(), map_);
      AllListed(names, files);
    }

    /** The metadata on disk describe the store, and the tracks of one SSTable hold all of its payload. */
    ghost predicate Saved(name: Name)
      reads this, allocator
    {
      && name in files && files[name].pending == []
      && TracksOk(files[name].tracks, |device|)
      && Holds(device, files[name].tracks, files[name].data, |files[name].data|)
      && UpToDate()
    }

    /** Nothing on disk has changed. */
    twostate predicate DiskSame()
      reads `device, `metadata, `saved
    {
      device == old(device) && metadata == old(metadata) && saved == old(saved)
    }

    /** Places the SSTable if needed, applies its pending updates and saves the metadata. It fails exactly when the
        SSTable cannot be stored; then nothing changes. */
    method Sync(name: Name) returns (status: Status)
      requires Valid()
      modifies `files, `s2t, `device, `counters, `metadata, `saved, allocator
      ensures Valid() && allocator.zones == old(allocator.zones) && (old(Durable()) ==> Durable())
      ensures SyncStatus(old(files), old(allocator.State()), persistence, name, status)
      ensures !status.Ok? ==>
                && files == old(files) && DiskSame() && counters == old(counters)
                && allocator.State() == old(allocator.State())
      ensures status.Ok? ==> SyncedFile(old(files), files, name, persistence)
      ensures status.Ok? && persistence ==> Saved(name)
      ensures status.Ok? && !persistence ==> DiskSame()
    {
      hide Valid, Saved, NoRoom, SSTable.Fits, Durable, Tight;
      if name !in files {
        return NotFound;
      }
      if files[name].data == [] {
        NothingPending(name);
        MarkSynced(name);
        if persistence {
          SavedDurable(name);
        }
        return Ok;
      }
      if files[name].tracks == [] {
        status := Place(name);
        if !status.Ok? {
          return;
        }
      }
      status := SyncPlaced(name);
      if status.Ok? && persistence {
        SavedDurable(name);
      }
    }

    lemma SavedDurable(name: Name)
      requires Saved(name)
      ensures Durable()
    {
    }

    method SyncPlaced(name: Name) returns (status: Status)
      requires Valid() && name in files && files[name].tracks != []
      modifies `files, `device, `counters, `metadata, `saved
      ensures Valid()
      ensures status == if persistence && !old(files)[name].Fits() then IOError else Ok
      ensures !status.Ok? ==> files == old(files) && DiskSame() && counters == old(counters)
      ensures status.Ok? ==>
                var f := old(files)[name];
                files == old(files)[name := f.(synced := true, pending := if persistence then [] else f.pending)]
      ensures status.Ok? && persistence ==> Saved(name)
      ensures status.Ok? && !persistence ==> DiskSame()
    {
      hide Valid, Saved, SSTable.Fits;
      if persistence {
        status := Persist(name);
      } else {
        MarkSynced(name);
        status := Ok;
      }
    }

    /** Marks an SSTable with nothing to write, or kept in memory only, as synced. */
    method MarkSynced(name: Name)
      requires Valid() && name in files && (persistence ==> files[name].pending == [])
      modifies `files, `metadata, `saved
      ensures Valid() && files == old(files)[name := old(files)[name].(synced := true)]
      ensures persistence ==> Saved(name)
      ensures !persistence ==> DiskSame()
    {
      hide FileOk, OwnersAgree, Holds, TracksOk, Describes, StartOf, SegmentAt;
      SyncedOnly(files, allocator.State(), s2t, device, name);
      files := files[name := files[name].(synced := true)];
      if persistence {
        AppliedHolds(files[name], device);
        PersistSnapshot(s2t);
      }
    }

    /** Applies the pending updates of a placed SSTable and saves the metadata. */
    method Persist(name: Name) returns (status: Status)
      requires Valid() && name in files && files[name].tracks != []
      modifies `files, `device, `counters, `metadata, `saved
      ensures Valid()
      ensures status == if old(files)[name].Fits() then Ok else IOError
      ensures !status.Ok? ==> files == old(files) && DiskSame() && counters == old(counters)
      ensures status.Ok? ==>
                && files == old(files)[name := Applied(old(files)[name])]
                && Saved(name)
    {
      hide FileOk, OwnersAgree, Holds, TracksOk, Describes, StartOf, SegmentAt;
      status := Apply(name);
      if !status.Ok? {
        return;
      }
      SameOwners(files, allocator.State(), s2t, name, Applied(files[name]));
      files := files[name := Applied(files[name])];
      AppliedHolds(files[name], device);
      PersistSnapshot(s2t);
    }

    lemma NothingPending(name: Name)
      requires Valid() && name in files && files[name].data == []
      ensures files[name].pending == []
    {
      assert FileOk(files[name], device);
    }

    /** Forgets an SSTable and frees its tracks. Pending updates are applied first, so it can fail like a sync. */
    method Unlink(name: Name) returns (status: Status)
      requires Valid()
      modifies `files, `s2t, `device, `counters, `metadata, `saved, allocator
      ensures allocator.zones == old(allocator.zones) && (old(Durable()) ==> Durable())
      ensures status.Ok? <==> UnlinkOk(old(files), old(allocator.State()), persistence, name)
      ensures !status.Ok? ==> Valid() && files == old(files) && DiskSame()
      ensures status.Ok? ==> files == old(files) - {name}
      ensures status.Ok? && persistence ==> UpToDate()
      ensures status.Ok? && !persistence ==> DiskSame()
      ensures Valid() <==> name in old(files) || MapUnused(old(files), FileNumber(name))
    {
      hide Valid, NoRoom, SSTable.Fits, UpToDate, Durable, MapUnused, FileNumber, Consistent;
      ghost var map_ := s2t;
      if name in files {
        if persistence && files[name].pending != [] {
          PendingData(name);
          if files[name].tracks == [] {
            status := Place(name);
            if !status.Ok? {
              return;
            }
          }
          status := ApplyOnly(name);
          if !status.Ok? {
            return;
          }
        }
        Forget(name);
        map_ := s2t;
        ValidConsistent();
      } else {
        ValidConsistent();
        EraseNumber(name);
      }
      if persistence {
        PersistSnapshot(map_);
        UpToDateDurable();
      }
      status := Ok;
    }

    lemma ValidConsistent()
      requires Valid()
      ensures Consistent(files, allocator.State(), s2t, device, allocator.zones)
    {
    }

    lemma UpToDateDurable()
      requires UpToDate()
      ensures Durable()
    {
    }

    lemma PendingData(name: Name)
      requires Valid() && name in files && files[name].pending != []
      ensures files[name].data != []
    {
      assert FileOk(files[name], device);
    }

    /** Applies the pending updates but keeps them. */
    method ApplyOnly(name: Name) returns (status: Status)
      requires Valid() && name in files && files[name].tracks != []
      modifies `device, `counters
      ensures Valid()
      ensures status == if files[name].Fits() then Ok else IOError
      ensures !status.Ok? ==> device == old(device) && counters == old(counters)
    {
      hide OwnersAgree;
      ghost var device0 := device;
      status := Apply(name);
      if status.Ok? {
        StillPending(files[name], device0, device);
      }
    }

    method Forget(name: Name)
      requires Valid() && name in files
      modifies `files, `s2t, allocator
      ensures Valid() && files == old(files) - {name} && allocator.zones == old(allocator.zones)
    {
      hide OwnersAgree, FileOk;
      var f := files[name];
      ghost var t := allocator.State();
      if f.number == 0 {
        DropUnnumbered(files, t, s2t, name);
      } else {
        ReleaseOwners(files, t, s2t, name, f.number, files - {name});
      }
      var _ := allocator.Release(f.number);
      s2t := s2t - {f.number};
      files := files - {name};
    }

    method EraseNumber(name: Name)
      requires Valid()
      modifies `s2t
      ensures Valid() <==> MapUnused(files, FileNumber(name))
    {
      hide OwnersAgree, FileOk, FileNumber;
      EraseMap(files, allocator.State(), s2t, FileNumber(name));
      s2t := s2t - {FileNumber(name)};
    }

    /** Opens the store over the device: whatever was in memory is gone, and the SSTables come from the metadata. `sn`
        is what these describe, if anything. */
    method Initialize(db: Name, zoneCount: nat, ghost sn: Snapshot) returns (status: Status)
      requires |device| >= zoneCount * ZONE_SECTORS * SECTOR_SIZE
      modifies `files, `s2t, `persistence, `dbname, allocator
      ensures zoneCount == 0 ==> status.InvalidArgument? && files == old(files)
      ensures zoneCount != 0 ==> persistence && allocator.zones == zoneCount && dbname == db
      ensures zoneCount != 0 && metadata.None? ==> status.Ok? && Valid() && files == map[]
      ensures zoneCount != 0 && metadata.Some? && Decode(metadata.value, zoneCount).GeometryMismatch? ==>
                status.InvalidArgument? && Valid() && files == map[]
      ensures zoneCount != 0 && metadata.Some? && status.Ok? ==> Decode(metadata.value, zoneCount).Entries?
      ensures metadata.Some? && status.Corruption? ==> Decode(metadata.value, zoneCount).Corruption?
      ensures zoneCount != 0 && DescribedBy(sn, zoneCount) ==> Reopened(sn.files, status)
    {
      hide Describes, Writable, Encode, Consistent, Reopened, GetHeader, GetRecords, PutRecords, RecordsOf, OwnersAgree;
      if zoneCount == 0 {
        return InvalidArgument;
      }
      dbname, files, s2t := db, map[], map[];
      allocator.Reset(zoneCount);
      NoFilesAgree(allocator.State());
      persistence := true;
      if metadata.None? {
        return Ok;
      }
      ghost var known := DescribedBy(sn, zoneCount);
      if known {
        DescribedHeader(sn, zoneCount);
      }
      match GetHeader(metadata.value, zoneCount) {
        case BadHeader => status := Status.Corruption;
        case OtherGeometry => status := InvalidArgument;
        case Count(count, rest) => status := Load(rest, count, sn, known);
      }
    }

    /** The metadata are those of `sn`, with room for every number, and the device holds what was persisted. */
    ghost predicate DescribedBy(sn: Snapshot, zoneCount: nat)
      reads `metadata, `device, `dbname
    {
      && metadata.Some? && Describes(metadata.value, zoneCount, dbname, sn.names, sn.files)
      && Writable(zoneCount, RecordsOf(dbname, sn.names, sn.files))
      && Consistent(sn.files, sn.tables, sn.map_, device, zoneCount)
    }

    lemma DescribedHeader(sn: Snapshot, zoneCount: nat)
      requires DescribedBy(sn, zoneCount)
      ensures metadata.Some? && Lists(sn.names, sn.files)
      ensures GetHeader(metadata.value, zoneCount) ==
              Count(|sn.names|, PutRecords(RecordsOf(dbname, sn.names, sn.files)))
    {
      hide Consistent, Writable, Encode, GetHeader, PutRecords;
      HeaderRoundTrip(zoneCount, RecordsOf(dbname, sn.names, sn.files), zoneCount);
    }

    /** Opening succeeds exactly if every SSTable fits its tracks. Then each is back under the name built from its path,
        with its persisted bytes, if no two names are built alike. The store is valid exactly if no SSTable with tracks
        loses its name to one with a greater name. All SSTables are back under their own names exactly if besides every
        name is in the directory of the database. */
    ghost predicate Reopened(was: Files, status: Status)
      reads `files, `s2t, `device, `dbname, allocator
    {
      && (status.Ok? <==> forall n | n in was :: was[n].Fits())
      && (status.Ok? ==> files.Keys == Homes(dbname, was))
      && (status.Ok? && Apart(dbname, was) ==> BackUnder(dbname, was, files))
      && (status.Ok? ==> (Valid() <==> PlacedLast(dbname, was)))
      && (status.Ok? && BackAgain(was, files) <==> AllInDirectory(dbname, was) && forall n | n in was :: was[n].Fits())
    }

    /** The loop over the entries of the metadata. */
    method Load(b: Bytes, count: nat, ghost sn: Snapshot, ghost known: bool) returns (status: Status)
      requires Valid() && files == map[]
      requires known ==> DescribedBy(sn, allocator.zones) && Lists(sn.names, sn.files)
      requires known ==> count == |sn.names| && b == PutRecords(RecordsOf(dbname, sn.names, sn.files))
      modifies `files, `s2t, allocator
      ensures allocator.zones == old(allocator.zones)
      ensures status.Ok? ==> GetRecords(b, count).Some?
      ensures status.Corruption? ==> GetRecords(b, count).None?
      ensures known ==> Reopened(sn.files, status)
    {
      hide Valid, Loaded, Reopened, GetRecord, RecordsOf, PutRecords, DescribedBy, Lists;
      ValidRoom();
      ghost var loaded: Files := map[];
      if known {
        NoneLoaded(sn);
      }
      var rest, k := b, 0;
      while k < count
        invariant k <= count && allocator.zones == old(allocator.zones) && Room()
        invariant GetRecords(b, count).Some? <==> GetRecords(rest, count - k).Some?
        invariant known ==> Loaded(sn, loaded, k, rest)
      {
        status, rest, loaded := LoadNext(rest, k, sn, loaded, known);
        if !status.Ok? {
          return;
        }
        k := k + 1;
      }
      status := Ok;
      if known {
        Finished(sn, loaded, rest);
      }
    }

    /** The first `k` SSTables of `sn` are loaded, and `rest` has the entries of the others. */
    ghost predicate Loaded(sn: Snapshot, loaded: Files, k: nat, rest: Bytes)
      reads `files, `s2t, `device, `dbname, allocator
    {
      && Lists(sn.names, sn.files) && k <= |sn.names|
      && Writable(allocator.zones, RecordsOf(dbname, sn.names, sn.files))
      && rest == PutRecords(RecordsOf(dbname, sn.names, sn.files)[k..])
      && Consistent(sn.files, sn.tables, sn.map_, device, allocator.zones)
      && Held(loaded) && LoadedTo(loaded, sn.files, sn.names, k) && Images(files, loaded, dbname)
      && forall j | 0 <= j < k :: sn.files[sn.names[j]].Fits()
    }

    lemma NoneLoaded(sn: Snapshot)
      requires Valid() && files == map[] && DescribedBy(sn, allocator.zones) && Lists(sn.names, sn.files)
      ensures Loaded(sn, map[], 0, PutRecords(RecordsOf(dbname, sn.names, sn.files)))
    {
      hide Writable, PutRecords, Consistent, Recovered, RecordsOf, OwnersAgree;
      var records := RecordsOf(dbname, sn.names, sn.files);
      assert records[0..] == records;
    }

    /** Reads one entry, then restores its SSTable. */
    method LoadNext(b: Bytes, k: nat, ghost sn: Snapshot, ghost loaded: Files, ghost known: bool)
      returns (status: Status, rest: Bytes, ghost loaded': Files)
      requires Room() && (known ==> Loaded(sn, loaded, k, b) && k < |sn.names|)
      modifies `files, `s2t, allocator
      ensures Room() && allocator.zones == old(allocator.zones)
      ensures status.Corruption? <==> GetRecord(b).None?
      ensures status.Ok? ==> GetRecord(b).Some? && rest == GetRecord(b).value.1
      ensures known && status.Ok? ==> Loaded(sn, loaded', k + 1, rest)
      ensures known && !status.Ok? ==> Reopened(sn.files, status)
    {
      hide Consistent, SSTable.Fits, Recovered, Writable, Reopened, RecordOf, PutRecords, PutRecord, GetRecord,
           OwnersAgree, AllOk, Home;
      var next := GetRecord(b);
      rest, loaded' := b, loaded;
      ghost var n: Name := [];
      if known {
        n := sn.names[k];
        NextRecord(RecordsOf(dbname, sn.names, sn.files), k, allocator.zones);
        NextExpected(sn.names, sn.files, loaded, k);
      }
      if next.None? {
        return Status.Corruption, rest, loaded';
      }
      ghost var files0 := files;
      status := LoadEntry(next.value.0, n, sn, loaded, known);
      rest := next.value.1;
      if known {
        if status.Ok? {
          ghost var f := files[Home(dbname, n)];
          LoadedNext(loaded, sn.files, sn.names, k, f);
          ImagesNext(files0, loaded, dbname, n, f);
          loaded' := loaded[n := f];
        } else {
          StoppedAt(sn, k, status);
        }
      }
    }

    /** The SSTables loaded so far, under the names they had, agree with owners and device. */
    ghost predicate Held(loaded: Files)
      reads `s2t, `device, allocator
    {
      allocator.Valid() && AllOk(loaded, device) && OwnersAgree(loaded, allocator.State(), s2t)
    }

    lemma ValidRoom()
      requires Valid()
      ensures Room()
    {
    }

    lemma StoppedAt(sn: Snapshot, k: nat, status: Status)
      requires Lists(sn.names, sn.files) && k < |sn.names| && !sn.files[sn.names[k]].Fits() && !status.Ok?
      ensures Reopened(sn.files, status)
    {
      assert sn.names[k] in sn.files;
    }

    lemma Finished(sn: Snapshot, loaded: Files, rest: Bytes)
      requires Room() && Loaded(sn, loaded, |sn.names|, rest)
      ensures Reopened(sn.files, Ok)
    {
      hide SSTable.Fits, OwnersAgree, AllOk, Writable, PutRecords, Consistent, RecordsOf, Apart, Homes;
      hide LoadedTo, Images, BackAgain, BackUnder, AllInDirectory, PlacedLast;
      AllLoaded(loaded, sn.files, sn.names);
      AllFit(sn.names, sn.files);
      ComeBack(files, loaded, sn.files, dbname, allocator.State(), s2t, device);
    }

    /** What every state of the store has, also while it is being loaded. */
    ghost predicate Room()
      reads `device, allocator
    {
      allocator.Valid() && |device| >= allocator.zones * ZONE_SECTORS * SECTOR_SIZE
    }

    method LoadEntry(r: Record, ghost n: Name, ghost sn: Snapshot, ghost loaded: Files, ghost known: bool)
      returns (status: Status)
      requires Room()
      requires known ==> Held(loaded) && Consistent(sn.files, sn.tables, sn.map_, device, allocator.zones)
      requires known ==> Expected(n, sn.files, loaded) && n in sn.files && r == RecordOf(dbname, n, sn.files[n])
      modifies `files, `s2t, allocator
      ensures Room() && allocator.zones == old(allocator.zones) && !status.Corruption?
      ensures known ==> n in sn.files && (status.Ok? <==> sn.files[n].Fits())
      ensures known && status.Ok? ==>
                var m := Home(dbname, n);
                && m in files && files == old(files)[m := files[m]] && Recovered(sn.files[n], files[m])
                && Held(loaded[n := files[m]])
    {
      hide OwnersAgree, AllOk, Took, Restorable, Consistent, Expected, Recovered, Holds, TracksOk, StartOf,
           Segment.Valid;
      ghost var t0, s2t0 := allocator.State(), s2t;
      if known {
        EntryRestorable(n, sn.files, sn.tables, sn.map_, loaded, t0, s2t, device, allocator.zones);
      }
      status := ClaimTracks(r);
      if !status.Ok? {
        return;
      }
      var f := SSTable(r.number, r.level, r.largest, r.synced, seq(r.size, _ => 0), r.tracks, []);
      var m := Absolute(dbname, r.path);
      s2t, files := s2t[r.number := r.tracks], files[m := f];
      var payload := RestorePayload(device, r.tracks, r.size);
      if payload.None? {
        return IOError;
      }
      f := f.(data := payload.value);
      files := files[m := f];
      if known {
        EntryLoaded(n, sn.files, sn.tables, sn.map_, loaded, t0, allocator.State(), s2t0, device, allocator.zones, f);
        assert files == old(files)[m := f];
      }
    }

    /** Takes the tracks of an entry. */
    method ClaimTracks(e: Record) returns (status: Status)
      requires Room()
      modifies allocator
      ensures Room() && allocator.zones == old(allocator.zones) && !status.Corruption?
      ensures status.Ok? ==>
                Took(old(allocator.State()), allocator.State(), e.number, e.tracks) && TracksOk(e.tracks, |device|)
      ensures Restorable(old(allocator.State()), allocator.zones, e.tracks) && (e.tracks != [] ==> e.number != 0) ==>
                status.Ok?
    {
      hide TrackAllocator.Restored, Took, Restorable, TracksOk;
      ghost var t0 := allocator.State();
      if e.tracks != [] {
        status := allocator.Restore(e.number, e.tracks);
        if !status.Ok? {
          return;
        }
      } else {
        status := Ok;
        TookNone(t0, e.number);
      }
      TookTracksOk(t0, allocator.State(), e.number, e.tracks, allocator.zones, |device|);
    }
  }

  /** The next entry is the first of those not read yet. */
  lemma NextRecord(records: seq<Record>, k: nat, zones: nat)
    requires k < |records| && Writable(zones, records)
    ensures GetRecord(PutRecords(records[k..])) == Some((records[k], PutRecords(records[k + 1..])))
  {
    hide RecordFits, PutRecord, GetRecord;
    assert records[k..][0] == records[k] && records[k..][1..] == records[k + 1..];
    RecordRoundTrip(records[k], PutRecords(records[k + 1..]));
  }

  lemma StillPending(f: SSTable, device: Bytes, device': Bytes)
    requires FileOk(f, device) && FileOk(Applied(f), device') && |device'| == |device|
    ensures FileOk(f, device')
  {
    hide Contiguous, StartOf, TrackBytes;
    forall i | 0 <= i < |f.tracks|
      ensures HoldsTrack(TrackBytes(device', f.tracks[i]), StartOf(f.tracks, i), f.data, f.Persisted())
    {
      assert HoldsTrack(TrackBytes(device', f.tracks[i]), StartOf(f.tracks, i), f.data, |f.data|);
    }
  }

  /** No SSTable with tracks has this number. */
  predicate MapUnused(files: Files, id: nat) {
    forall m | m in files && files[m].number == id :: files[m].tracks == []
  }

  /** An SSTable can be unlinked unless its pending updates cannot be stored. */
  predicate UnlinkOk(files: Files, t: Tables, persistence: bool, name: Name) {
    name in files && persistence && files[name].pending != [] ==> Storable(files[name], t)
  }

  lemma DropUnnumbered(files: Files, t: Tables, s2t: map<nat, seq<Segment>>, n: Name)
    requires OwnersAgree(files, t, s2t) && n in files && files[n].number == 0
    ensures OwnersAgree(files - {n}, t, s2t - {0})
  {
    forall typ: TrackType, i: nat | i < |t.Of(typ)| && t.Of(typ)[i] != 0
      ensures HasTrack(files - {n}, t.Of(typ)[i], SegmentAt(typ, i))
    {
      var m := HasTrackFile(files, t, typ, i);
      assert m in files - {n};
    }
    forall m, g | m in files - {n} && 0 <= g < |(files - {n})[m].tracks|
      ensures OwnedAs(t, (files - {n})[m].tracks[g], files[m].number)
    {
      assert OwnedAs(t, files[m].tracks[g], files[m].number);
    }
    forall m | m in files - {n} && files[m].tracks != [] ensures files[m].number != 0 {
      TracksNumbered(files, t, s2t, m);
    }
  }

  /** Exactly when a sync succeeds, and how it fails otherwise. */
  predicate SyncStatus(files: Files, t: Tables, persistence: bool, name: Name, status: Status) {
    if name !in files then status.NotFound?
    else
      var f := files[name];
      if f.data == [] then status.Ok?
      else if f.tracks == [] then
        if f.number == 0 then status.InvalidArgument? else if NoRoom(f, t) then status.IOError? else status.Ok?
      else if persistence && !f.Fits() then status.IOError? else status.Ok?
  }

  /** What a sync changes: tracks if there were none, and the pending updates are gone if they are on the device. */
  ghost predicate SyncedFile(files: Files, files': Files, name: Name, persistence: bool) {
    && name in files && name in files'
    && var f, f' := files[name], files'[name];
    && files' == files[name := f']
    && f' == f.(synced := true, tracks := f'.tracks, pending := if persistence then [] else f.pending)
    && (if f.tracks != [] || f.data == [] then f'.tracks == f.tracks else f'.tracks != [] && Tight(f'.tracks, |f.data|))
  }

  lemma SyncedOnly(files: Files, t: Tables, s2t: map<nat, seq<Segment>>, device: Bytes, name: Name)
    requires AllOk(files, device) && OwnersAgree(files, t, s2t) && name in files
    ensures AllOk(files[name := files[name].(synced := true)], device)
    ensures OwnersAgree(files[name := files[name].(synced := true)], t, s2t)
  {
    var f := files[name];
    assert FileOk(f, device);
    assert FileOk(f.(synced := true), device);
    SameOwners(files, t, s2t, name, f.(synced := true));
  }

  lemma AppliedHolds(f: SSTable, device: Bytes)
    requires FileOk(f, device) && f.pending == []
    ensures TracksOk(f.tracks, |device|) && Holds(device, f.tracks, f.data, |f.data|)
  {
  }

  ghost function ApplyTally(mode: Mode, c: Counters, f: SSTable): Counters
    requires Contiguous(f.pending, f.data, f.Persisted())
  {
    DistinctAreTouched(f.tracks, f.pending, f.data, f.Persisted());
    CallTally(mode, c, f.tracks, f.pending, f.data, f.Persisted())
  }

  /** When an SSTable can be placed (if it is not yet) and hold its payload. */
  predicate Storable(f: SSTable, t: Tables) {
    if f.tracks == [] then f.number != 0 && !NoRoom(f, t) else f.Fits()
  }

  /** The payload does not fit the free tracks of the tiers it may use. */
  predicate NoRoom(f: SSTable, t: Tables) {
    |f.data| > FreeBytes(t.top, Top) + (if f.level == f.largest then FreeBytes(t.bottom, Bottom) else 0)
  }

  lemma WrittenOutside(was: Bytes, dev: Bytes, tracks: seq<Segment>, data: Bytes, p: nat)
    requires TracksOk(tracks, |was|) && Written(was, dev, tracks, data, p)
    ensures Outside(was, dev, tracks)
  {
  }

  lemma OwnersParts(files: Files, t: Tables, s2t: map<nat, seq<Segment>>)
    requires OwnersAgree(files, t, s2t)
    ensures NumbersDiffer(files) && TracksOwned(files, t)
  {
  }

  lemma OthersNumbered(files: Files, t: Tables, s2t: map<nat, seq<Segment>>, n: Name)
    requires OwnersAgree(files, t, s2t) && n in files
    ensures forall m | m in files && m != n && files[m].number == files[n].number :: files[n].number == 0
  {
  }

  lemma NoFilesAgree(t: Tables)
    requires |t.top| == |t.bottom| && forall i | 0 <= i < |t.top| :: t.top[i] == 0 && t.bottom[i] == 0
    ensures OwnersAgree(map[], t, map[])
  {
  }

  lemma SameFileOk(device: Bytes, name: Name, f: SSTable, files: Files)
    requires AllOk(files, device)
    requires var g := if name in files then files[name]
             else NEW_SSTABLE; f == g.(number := f.number, level := f.level, largest := f.largest)
    ensures AllOk(files[name := f], device)
  {
    var g := if name in files then files[name] else NEW_SSTABLE;
    NewFileOk(device);
    assert FileOk(g, device);
    assert FileOk(f, device);
  }

  lemma EmptyFileOk(f: SSTable, device: Bytes)
    requires f.data == [] && f.tracks == [] && f.pending == []
    ensures FileOk(f, device)
  {
  }

  lemma TracksNumbered(files: Files, t: Tables, s2t: map<nat, seq<Segment>>, n: Name)
    requires OwnersAgree(files, t, s2t) && n in files && files[n].tracks != []
    ensures files[n].number != 0
  {
    assert OwnedAs(t, files[n].tracks[0], files[n].number);
  }
}
