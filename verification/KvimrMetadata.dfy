/** The metadata file: how the SSTables and their tracks are written down and read back. */
module KvimrMetadata {
  import opened Options
  import opened KvimrTracks
  import opened KvimrPayload

  // ---- Numbers, little end first

  function Pow256(n: nat): nat {
    if n == 0 then 1 else 256 * Pow256(n - 1)
  }

  function Put(v: nat, n: nat): (r: Bytes)
    ensures |r| == n
    decreases n
  {
    if n == 0 then [] else [(v % 256) as Byte] + Put(v / 256, n - 1)
  }

  function Number(b: Bytes): nat {
    if b == [] then 0 else b[0] as int + 256 * Number(b[1..])
  }

  /** A number of `n` bytes and what follows it. */
  function Get(b: Bytes, n: nat): Option<(nat, Bytes)> {
    if |b| < n then None else Some((Number(b[..n]), b[n..]))
  }

  lemma {:induction false} NumberPut(v: nat, n: nat)
    requires v < Pow256(n)
    ensures Number(Put(v, n)) == v
    decreases n
  {
    if n > 0 {
      assert v / 256 < Pow256(n - 1);
      NumberPut(v / 256, n - 1);
      assert Put(v, n)[1..] == Put(v / 256, n - 1);
    }
  }

  lemma GetPut(v: nat, n: nat, rest: Bytes)
    requires v < Pow256(n)
    ensures Get(Put(v, n) + rest, n) == Some((v, rest))
  {
    NumberPut(v, n);
    assert (Put(v, n) + rest)[..n] == Put(v, n) && (Put(v, n) + rest)[n..] == rest;
  }

  lemma GetPutThen(v: nat, n: nat, b: Bytes, rest: Bytes)
    requires v < Pow256(n)
    ensures Get((Put(v, n) + b) + rest, n) == Some((v, b + rest))
  {
    assert (Put(v, n) + b) + rest == Put(v, n) + (b + rest);
    GetPut(v, n, b + rest);
  }

  /** More bytes after a number do not change it. */
  lemma GetMore(b: Bytes, more: Bytes, n: nat)
    requires Get(b, n).Some?
    ensures Get(b + more, n) == Some((Get(b, n).value.0, Get(b, n).value.1 + more))
  {
    assert (b + more)[..n] == b[..n] && (b + more)[n..] == b[n..] + more;
  }

  /** A level is written as an unsigned 32-bit number and read back as a signed one. */
  function ToUnsigned(x: int): nat {
    x % 0x1_0000_0000
  }

  function ToSigned(x: nat): int {
    if x < 0x8000_0000 then x else x - 0x1_0000_0000
  }

  // ---- One track

  function PutTrack(s: Segment): Bytes {
    Put(s.zone, 4) + (Put(s.group, 4) +
                      ([if s.typ.Bottom? then 1 else 0] + (Put(s.sectorStart, 8) + Put(s.sectorLength, 4))))
  }

  function GetTrack(b: Bytes): Option<(Segment, Bytes)> {
    var zone := Get(b, 4);
    if zone.None? then None else
    var group := Get(zone.value.1, 4);
    if group.None? || group.value.1 == [] then None else
    var flag, b1 := group.value.1[0], group.value.1[1..];
    var start := Get(b1, 8);
    if start.None? then None else
    var length := Get(start.value.1, 4);
    if length.None? then None else
    Some((Segment(zone.value.0, group.value.0, if flag != 0 then Bottom else Top, start.value.0, length.value.0),
      length.value.1))
  }

  predicate TrackFits(s: Segment) {
    s.zone < Pow256(4) && s.group < Pow256(4) && s.sectorStart < Pow256(8) && s.sectorLength < Pow256(4)
  }

  lemma TrackRoundTrip(s: Segment, rest: Bytes)
    requires TrackFits(s)
    ensures GetTrack(PutTrack(s) + rest) == Some((s, rest))
  {
    hide Pow256, Put, Number, Get;
    var flag: Bytes := [if s.typ.Bottom? then 1 else 0];
    var b4 := Put(s.sectorLength, 4) + rest;
    var b3 := Put(s.sectorStart, 8) + b4;
    var b2 := flag + b3;
    var b1 := Put(s.group, 4) + b2;
    assert PutTrack(s) + rest == Put(s.zone, 4) + b1;
    GetPut(s.zone, 4, b1);
    GetPut(s.group, 4, b2);
    assert b2[1..] == b3;
    GetPut(s.sectorStart, 8, b4);
    GetPut(s.sectorLength, 4, rest);
  }

  lemma TrackMore(b: Bytes, more: Bytes)
    requires GetTrack(b).Some?
    ensures GetTrack(b + more) == Some((GetTrack(b).value.0, GetTrack(b).value.1 + more))
  {
    hide Get;
    GetMore(b, more, 4);
    var b1 := Get(b, 4).value.1;
    GetMore(b1, more, 4);
    var b2 := Get(b1, 4).value.1;
    assert (b2 + more)[1..] == b2[1..] + more;
    GetMore(b2[1..], more, 8);
    GetMore(Get(b2[1..], 8).value.1, more, 4);
  }

  // ---- Lists of tracks

  function PutTracks(tracks: seq<Segment>): Bytes {
    if tracks == [] then [] else PutTrack(tracks[0]) + PutTracks(tracks[1..])
  }

  function GetTracks(b: Bytes, n: nat): Option<(seq<Segment>, Bytes)> {
    if n == 0 then Some(([], b)) else
    var first := GetTrack(b);
    if first.None? then None else
    var others := GetTracks(first.value.1, n - 1);
    if others.None? then None else Some(([first.value.0] + others.value.0, others.value.1))
  }

  lemma ThreeParts(a: Bytes, b: Bytes, c: Bytes)
    ensures (a + b) + c == a + (b + c)
  {
  }

  lemma {:induction false} TracksRoundTrip(tracks: seq<Segment>, rest: Bytes)
    requires forall i | 0 <= i < |tracks| :: TrackFits(tracks[i])
    ensures GetTracks(PutTracks(tracks) + rest, |tracks|) == Some((tracks, rest))
    decreases |tracks|
  {
    hide GetTrack, PutTrack, TrackFits;
    if tracks == [] {
      assert PutTracks(tracks) + rest == rest;
    } else {
      TracksRoundTrip(tracks[1..], rest);
      TrackRoundTrip(tracks[0], PutTracks(tracks[1..]) + rest);
      ThreeParts(PutTrack(tracks[0]), PutTracks(tracks[1..]), rest);
      assert [tracks[0]] + tracks[1..] == tracks;
    }
  }

  lemma {:induction false} TracksMore(b: Bytes, more: Bytes, n: nat)
    requires GetTracks(b, n).Some?
    ensures GetTracks(b + more, n) == Some((GetTracks(b, n).value.0, GetTracks(b, n).value.1 + more))
    decreases n
  {
    if n > 0 {
      hide GetTrack;
      TrackMore(b, more);
      TracksMore(GetTrack(b).value.1, more, n - 1);
    }
  }

  // ---- One SSTable

  datatype Record = Record(path: Bytes, number: nat, level: int, largest: int, size: nat, synced: bool,
          tracks: seq<Segment>)

  predicate RecordFits(r: Record) {
    && r.number < Pow256(8) && r.size < Pow256(8) && |r.path| < Pow256(4) && |r.tracks| < Pow256(4)
    && -0x8000_0000 <= r.level < 0x8000_0000 && -0x8000_0000 <= r.largest < 0x8000_0000
    && forall i | 0 <= i < |r.tracks| :: TrackFits(r.tracks[i])
  }

  function PutRecord(r: Record): Bytes {
    PutHead(r.number, ToUnsigned(r.level), ToUnsigned(r.largest), r.size) +
    ([if r.synced then 1 else 0] + PutTail(r.path, r.tracks))
  }

  /** File number, level, largest level and size. */
  function PutHead(number: nat, level: nat, largest: nat, size: nat): Bytes {
    Put(number, 8) + (Put(level, 4) + (Put(largest, 4) + Put(size, 8)))
  }

  function PutTail(path: Bytes, tracks: seq<Segment>): Bytes {
    Put(|path|, 4) + (path + (Put(|tracks|, 4) + PutTracks(tracks)))
  }

  function GetRecord(b: Bytes): Option<(Record, Bytes)> {
    var head := GetHead(b);
    if head.None? || head.value.4 == [] then None else
    var (number, level, largest, size, b1) := head.value;
    var tail := GetTail(b1[1..]);
    if tail.None? then None else
    var (path, tracks, rest) := tail.value;
    Some((Record(path, number, ToSigned(level), ToSigned(largest), size, b1[0] != 0, tracks), rest))
  }

  function GetHead(b: Bytes): Option<(nat, nat, nat, nat, Bytes)> {
    var number := Get(b, 8);
    if number.None? then None else
    var level := Get(number.value.1, 4);
    if level.None? then None else
    var largest := Get(level.value.1, 4);
    if largest.None? then None else
    var size := Get(largest.value.1, 8);
    if size.None? then None else Some((number.value.0, level.value.0, largest.value.0, size.value.0, size.value.1))
  }

  /** The path and the tracks. */
  function GetTail(b: Bytes): Option<(Bytes, seq<Segment>, Bytes)> {
    var length := Get(b, 4);
    if length.None? || length.value.0 > |length.value.1| then None else
    var path, b1 := length.value.1[..length.value.0], length.value.1[length.value.0..];
    var count := Get(b1, 4);
    if count.None? then None else
    var tracks := GetTracks(count.value.1, count.value.0);
    if tracks.None? then None else Some((path, tracks.value.0, tracks.value.1))
  }

  lemma TailRoundTrip(path: Bytes, tracks: seq<Segment>, rest: Bytes)
    requires |path| < Pow256(4) && |tracks| < Pow256(4) && forall i | 0 <= i < |tracks| :: TrackFits(tracks[i])
    ensures GetTail(PutTail(path, tracks) + rest) == Some((path, tracks, rest))
  {
    hide Pow256, Put, Get, PutTracks, GetTracks, TrackFits;
    var b2 := Put(|tracks|, 4) + PutTracks(tracks);
    GetPutThen(|path|, 4, path + b2, rest);
    var b1 := (path + b2) + rest;
    assert b1[..|path|] == path && b1[|path|..] == b2 + rest;
    GetPutThen(|tracks|, 4, PutTracks(tracks), rest);
    TracksRoundTrip(tracks, rest);
  }

  lemma TailMore(b: Bytes, more: Bytes)
    requires GetTail(b).Some?
    ensures GetTail(b + more) == Some((GetTail(b).value.0, GetTail(b).value.1, GetTail(b).value.2 + more))
  {
    hide Get, GetTracks;
    GetMore(b, more, 4);
    var n, b1 := Get(b, 4).value.0, Get(b, 4).value.1;
    assert (b1 + more)[..n] == b1[..n] && (b1 + more)[n..] == b1[n..] + more;
    GetMore(b1[n..], more, 4);
    TracksMore(Get(b1[n..], 4).value.1, more, Get(b1[n..], 4).value.0);
  }

  lemma HeadRoundTrip(number: nat, level: nat, largest: nat, size: nat, rest: Bytes)
    requires number < Pow256(8) && level < Pow256(4) && largest < Pow256(4) && size < Pow256(8)
    ensures GetHead(PutHead(number, level, largest, size) + rest) == Some((number, level, largest, size, rest))
  {
    hide Pow256, Put, Get;
    var t3 := Put(size, 8);
    var t2 := Put(largest, 4) + t3;
    var t1 := Put(level, 4) + t2;
    GetPutThen(number, 8, t1, rest);
    GetPutThen(level, 4, t2, rest);
    GetPutThen(largest, 4, t3, rest);
    GetPut(size, 8, rest);
  }

  lemma HeadMore(b: Bytes, more: Bytes)
    requires GetHead(b).Some?
    ensures var h := GetHead(b).value; GetHead(b + more) == Some((h.0, h.1, h.2, h.3, h.4 + more))
  {
    hide Get;
    GetMore(b, more, 8);
    var b1 := Get(b, 8).value.1;
    GetMore(b1, more, 4);
    var b2 := Get(b1, 4).value.1;
    GetMore(b2, more, 4);
    GetMore(Get(b2, 4).value.1, more, 8);
  }

  lemma UnsignedFits(x: int)
    requires -0x8000_0000 <= x < 0x8000_0000
    ensures ToUnsigned(x) < Pow256(4) && ToSigned(ToUnsigned(x)) == x
  {
    assert Pow256(4) == 0x1_0000_0000;
  }

  lemma RecordRoundTrip(r: Record, rest: Bytes)
    requires RecordFits(r)
    ensures GetRecord(PutRecord(r) + rest) == Some((r, rest))
  {
    hide Pow256, PutHead, GetHead, PutTail, GetTail, TrackFits;
    UnsignedFits(r.level);
    UnsignedFits(r.largest);
    var head := PutHead(r.number, ToUnsigned(r.level), ToUnsigned(r.largest), r.size);
    var flag: Bytes := [if r.synced then 1 else 0];
    var tail := PutTail(r.path, r.tracks);
    assert (head + (flag + tail)) + rest == head + (flag + (tail + rest));
    HeadRoundTrip(r.number, ToUnsigned(r.level), ToUnsigned(r.largest), r.size, flag + (tail + rest));
    assert (flag + (tail + rest))[1..] == tail + rest;
    TailRoundTrip(r.path, r.tracks, rest);
  }

  lemma RecordMore(b: Bytes, more: Bytes)
    requires GetRecord(b).Some?
    ensures GetRecord(b + more) == Some((GetRecord(b).value.0, GetRecord(b).value.1 + more))
  {
    hide GetHead, GetTail;
    HeadMore(b, more);
    var b1 := GetHead(b).value.4;
    assert (b1 + more)[1..] == b1[1..] + more;
    TailMore(b1[1..], more);
  }

  // ---- The file

  const MAGIC: Bytes := [0x4B, 0x56, 0x49, 0x4D, 0x52, 0x33, 0x35, 0x41]
  const VERSION: nat := 1

  datatype Loaded = Entries(records: seq<Record>) | Corruption | GeometryMismatch

  /** Numbers that must agree with those of the store. */
  function Geometry(zones: nat): seq<nat> {
    [VERSION, SECTOR_SIZE, ZONE_SECTORS, GROUPS_PER_ZONE, TOP_SECTORS, BOTTOM_SECTORS, zones]
  }

  function PutAll(numbers: seq<nat>): Bytes {
    if numbers == [] then [] else Put(numbers[0], 4) + PutAll(numbers[1..])
  }

  function GetAll(b: Bytes, n: nat): Option<(seq<nat>, Bytes)> {
    if n == 0 then Some(([], b)) else
    var first := Get(b, 4);
    if first.None? then None else
    var others := GetAll(first.value.1, n - 1);
    if others.None? then None else Some(([first.value.0] + others.value.0, others.value.1))
  }

  lemma {:induction false} AllRoundTrip(numbers: seq<nat>, rest: Bytes)
    requires forall i | 0 <= i < |numbers| :: numbers[i] < Pow256(4)
    ensures GetAll(PutAll(numbers) + rest, |numbers|) == Some((numbers, rest))
    decreases |numbers|
  {
    hide Pow256, Put, Get;
    if numbers == [] {
      assert PutAll(numbers) + rest == rest;
    } else {
      GetPutThen(numbers[0], 4, PutAll(numbers[1..]), rest);
      AllRoundTrip(numbers[1..], rest);
      assert [numbers[0]] + numbers[1..] == numbers;
    }
  }

  lemma {:induction false} AllMore(b: Bytes, more: Bytes, n: nat)
    requires GetAll(b, n).Some?
    ensures GetAll(b + more, n) == Some((GetAll(b, n).value.0, GetAll(b, n).value.1 + more))
    decreases n
  {
    if n > 0 {
      hide Get;
      GetMore(b, more, 4);
      AllMore(Get(b, 4).value.1, more, n - 1);
    }
  }

  function PutRecords(records: seq<Record>): Bytes {
    if records == [] then [] else PutRecord(records[0]) + PutRecords(records[1..])
  }

  function GetRecords(b: Bytes, n: nat): Option<(seq<Record>, Bytes)>
    decreases n
  {
    if n == 0 then Some(([], b)) else
    var first := GetRecord(b);
    if first.None? then None else
    var others := GetRecords(first.value.1, n - 1);
    if others.None? then None else Some(([first.value.0] + others.value.0, others.value.1))
  }

  lemma {:induction false} RecordsRoundTrip(records: seq<Record>, rest: Bytes)
    requires forall i | 0 <= i < |records| :: RecordFits(records[i])
    ensures GetRecords(PutRecords(records) + rest, |records|) == Some((records, rest))
    decreases |records|
  {
    hide RecordFits, PutRecord, GetRecord;
    if records == [] {
      assert PutRecords(records) + rest == rest;
    } else {
      ThreeParts(PutRecord(records[0]), PutRecords(records[1..]), rest);
      RecordRoundTrip(records[0], PutRecords(records[1..]) + rest);
      RecordsRoundTrip(records[1..], rest);
      assert [records[0]] + records[1..] == records;
    }
  }

  lemma {:induction false} RecordsMore(b: Bytes, more: Bytes, n: nat)
    requires GetRecords(b, n).Some?
    ensures GetRecords(b + more, n) == Some((GetRecords(b, n).value.0, GetRecords(b, n).value.1 + more))
    decreases n
  {
    hide GetRecord;
    if n > 0 {
      RecordMore(b, more);
      var rest := GetRecord(b).value.1;
      RecordsMore(rest, more, n - 1);
      assert GetRecords(rest + more, n - 1).value.0 == GetRecords(rest, n - 1).value.0;
    }
  }

  /** Every number has room in its field; what has not is cut to it. */
  predicate Writable(zones: nat, records: seq<Record>) {
    zones < Pow256(4) && |records| < Pow256(4) && forall i | 0 <= i < |records| :: RecordFits(records[i])
  }

  function Encode(zones: nat, records: seq<Record>): Bytes {
    MAGIC + (PutAll(Geometry(zones) + [|records|]) + PutRecords(records))
  }

  datatype Header = Count(count: nat, rest: Bytes) | BadHeader | OtherGeometry

  /** Magic, version, geometry and the number of entries. */
  function GetHeader(b: Bytes, zones: nat): Header {
    if |b| < |MAGIC| || b[..|MAGIC|] != MAGIC then BadHeader else
    var header := GetAll(b[|MAGIC|..], 8);
    if header.None? then BadHeader else
    var numbers := header.value.0;
    if |numbers| != 8 || numbers[..7] != Geometry(zones) then OtherGeometry else Count(numbers[7], header.value.1)
  }

  function Decode(b: Bytes, zones: nat): Loaded {
    match GetHeader(b, zones)
    case BadHeader => Corruption
    case OtherGeometry => GeometryMismatch
    case Count(count, rest) =>
      var records := GetRecords(rest, count);
      if records.None? then Corruption else Entries(records.value.0)
  }

  lemma HeaderFits(zones: nat, records: seq<Record>)
    requires Writable(zones, records)
    ensures forall i | 0 <= i < 8 :: (Geometry(zones) + [|records|])[i] < Pow256(4)
  {
    assert Pow256(4) == 0x1_0000_0000;
  }

  lemma GeometryIs(zones: nat, zones': nat)
    ensures |Geometry(zones)| == 7 && (Geometry(zones) == Geometry(zones') <==> zones == zones')
  {
    assert Geometry(zones)[6] == zones && Geometry(zones')[6] == zones';
  }

  lemma AfterMagic(b: Bytes)
    ensures (MAGIC + b)[..|MAGIC|] == MAGIC && (MAGIC + b)[|MAGIC|..] == b
  {
  }

  lemma HeaderIs(b: Bytes, zones: nat, numbers: seq<nat>, rest: Bytes)
    requires |numbers| == 8 && GetAll(b, 8) == Some((numbers, rest))
    ensures GetHeader(MAGIC + b, zones) ==
            if numbers[..7] == Geometry(zones) then Count(numbers[7], rest) else OtherGeometry
  {
    hide GetAll, Geometry;
    AfterMagic(b);
  }

  lemma HeaderRoundTrip(zones: nat, records: seq<Record>, zones': nat)
    requires Writable(zones, records)
    ensures GetHeader(Encode(zones, records), zones') ==
            if zones' == zones then Count(|records|, PutRecords(records)) else OtherGeometry
  {
    hide Pow256, PutAll, GetAll, PutRecords, RecordFits, Geometry, Writable, GetHeader;
    HeaderFits(zones, records);
    GeometryIs(zones, zones');
    var numbers := Geometry(zones) + [|records|];
    assert numbers[..7] == Geometry(zones) && numbers[7] == |records|;
    AllRoundTrip(numbers, PutRecords(records));
    HeaderIs(PutAll(numbers) + PutRecords(records), zones', numbers, PutRecords(records));
  }

  /** Reading back what was written gives the same SSTables; another number of zones is refused. */
  lemma MetadataRoundTrip(zones: nat, records: seq<Record>, zones': nat)
    requires Writable(zones, records)
    ensures Decode(Encode(zones, records), zones') == if zones' == zones then Entries(records) else GeometryMismatch
  {
    hide GetHeader, PutRecords, GetRecords, RecordFits;
    HeaderRoundTrip(zones, records, zones');
    assert PutRecords(records) + [] == PutRecords(records);
    RecordsRoundTrip(records, []);
  }

  /** A file cut short is noticed. */
  lemma TruncationDetected(zones: nat, records: seq<Record>, n: nat)
    requires Writable(zones, records) && n < |Encode(zones, records)|
    ensures Decode(Encode(zones, records)[..n], zones) == Corruption
  {
    hide Pow256, PutAll, GetAll, PutRecords, GetRecords, RecordFits;
    var full := Encode(zones, records);
    var b, more := full[..n], full[n..];
    if n >= |MAGIC| {
      var b1 := b[|MAGIC|..];
      assert b[..|MAGIC|] == MAGIC && b1 + more == PutAll(Geometry(zones) + [|records|]) + PutRecords(records);
      HeaderCut(zones, records, b1, more);
    }
  }

  lemma HeaderCut(zones: nat, records: seq<Record>, b: Bytes, more: Bytes)
    requires Writable(zones, records) && b + more == PutAll(Geometry(zones) + [|records|]) + PutRecords(records)
    requires more != []
    ensures GetAll(b, 8).Some? ==>
              var (numbers, rest) := GetAll(b, 8).value;
              && numbers == Geometry(zones) + [|records|] && numbers[..7] == Geometry(zones)
              && GetRecords(rest, |records|).None?
  {
    hide Pow256, PutAll, GetAll, PutRecords, GetRecords, RecordFits;
    HeaderFits(zones, records);
    AllRoundTrip(Geometry(zones) + [|records|], PutRecords(records));
    if GetAll(b, 8).Some? {
      AllMore(b, more, 8);
      RecordsCut(records, GetAll(b, 8).value.1, more);
    }
  }

  lemma RecordsCut(records: seq<Record>, b: Bytes, more: Bytes)
    requires (forall i | 0 <= i < |records| :: RecordFits(records[i])) && b + more == PutRecords(records) && more != []
    ensures GetRecords(b, |records|).None?
  {
    hide PutRecords, GetRecords, RecordFits;
    assert PutRecords(records) + [] == PutRecords(records);
    RecordsRoundTrip(records, []);
    if GetRecords(b, |records|).Some? {
      RecordsMore(b, more, |records|);
    }
  }

  // ---- Paths

  const SLASH: Byte := 0x2F
  const BACKSLASH: Byte := 0x5C

  function StripSlashes(p: Bytes): Bytes {
    if p != [] && (p[0] == SLASH || p[0] == BACKSLASH) then StripSlashes(p[1..]) else p
  }

  /** The path written to the file: without the name of the database and the separators after it. */
  function Relative(db: Bytes, name: Bytes): Bytes {
    if db <= name then StripSlashes(name[|db|..]) else name
  }

  function Absolute(db: Bytes, path: Bytes): Bytes {
    db + [SLASH] + path
  }

  /** The name under which an SSTable comes back. */
  function Home(db: Bytes, name: Bytes): Bytes {
    Absolute(db, Relative(db, name))
  }

  /** The name is in the directory of the database, after one slash. */
  predicate InDirectory(db: Bytes, name: Bytes) {
    && |db| < |name| && name[..|db|] == db && name[|db|] == SLASH
    && (|db| + 1 < |name| ==> name[|db| + 1] != SLASH && name[|db| + 1] != BACKSLASH)
  }

  /** A name comes back exactly when it is in the directory of the database. */
  lemma PathRoundTrip(db: Bytes, name: Bytes)
    ensures Home(db, name) == name <==> InDirectory(db, name)
  {
    var back := Home(db, name);
    if db <= name {
      var p := name[|db|..];
      assert name == db + p;
      StripShorter(p);
      if p != [] && p[0] == SLASH {
        var q := p[1..];
        assert StripSlashes(p) == StripSlashes(q);
        StripShorter(q);
        assert p == [SLASH] + q;
        if |q| > 0 && (q[0] == SLASH || q[0] == BACKSLASH) {
          StripShorter(q[1..]);
          assert |back| != |name|;
        } else {
          assert back == name;
        }
      } else {
        assert back[|db|] == SLASH;
      }
    } else {
      assert |back| == |db| + 1 + |name|;
    }
  }

  /** Names settle after two trips. */
  lemma HomeSettles(db: Bytes, name: Bytes)
    ensures Home(db, Home(db, Home(db, name))) == Home(db, Home(db, name))
  {
    var p := Relative(db, name);
    HomeOfHome(db, p);
    HomeOfHome(db, StripSlashes(p));
    StripTwice(p);
  }

  lemma HomeOfHome(db: Bytes, p: Bytes)
    ensures Home(db, Absolute(db, p)) == Absolute(db, StripSlashes(p))
  {
    var n := Absolute(db, p);
    assert n[|db|..] == [SLASH] + p && n[..|db|] == db;
    assert ([SLASH] + p)[1..] == p;
  }

  lemma {:induction false} StripTwice(p: Bytes)
    ensures StripSlashes(StripSlashes(p)) == StripSlashes(p)
    decreases |p|
  {
    if p != [] && (p[0] == SLASH || p[0] == BACKSLASH) {
      StripTwice(p[1..]);
    }
  }

  lemma {:induction false} StripShorter(p: Bytes)
    ensures |StripSlashes(p)| <= |p|
    decreases |p|
  {
    if p != [] {
      StripShorter(p[1..]);
    }
  }

  // ---- Where each field is

  /** The bytes of a number, the lowest first. */
  lemma {:induction false} LowestFirst(b: Bytes, x: Byte)
    ensures Number(b + [x]) == Number(b) + x as int * Pow256(|b|)
    decreases |b|
  {
    if b != [] {
      assert (b + [x])[1..] == b[1..] + [x];
      LowestFirst(b[1..], x);
    }
  }

  lemma PartAt(a: Bytes, b: Bytes, c: Bytes)
    ensures (a + (b + c))[|a|..|a| + |b|] == b && (a + (b + c))[|a| + |b|..] == c && (a + b)[|a|..] == b
  {
  }

  /** A track: zone, group, tier, first sector and number of sectors. */
  lemma TrackLayout(s: Segment)
    requires TrackFits(s)
    ensures var b := PutTrack(s);
            && |b| == 21 && Number(b[0..4]) == s.zone && Number(b[4..8]) == s.group && (b[8] == 1 <==> s.typ.Bottom?)
            && Number(b[9..17]) == s.sectorStart && Number(b[17..21]) == s.sectorLength
  {
    hide Number, Put;
    NumberPut(s.zone, 4);
    NumberPut(s.group, 4);
    NumberPut(s.sectorStart, 8);
    NumberPut(s.sectorLength, 4);
    var flag: Bytes := [if s.typ.Bottom? then 1 else 0];
    var b, z, g, f, n := PutTrack(s), Put(s.zone, 4), Put(s.group, 4), Put(s.sectorStart, 8), Put(s.sectorLength, 4);
    assert b == z + (g + (flag + (f + n)));
    assert b[0..4] == z && b[4..8] == g && b[8] == flag[0] && b[9..17] == f && b[17..21] == n;
  }

  lemma {:induction false} TracksLayout(tracks: seq<Segment>, t: nat)
    requires t < |tracks|
    ensures |PutTracks(tracks)| == 21 * |tracks| && PutTracks(tracks)[21 * t..21 * t + 21] == PutTrack(tracks[t])
    decreases |tracks|
  {
    hide PutTrack;
    TrackLength(tracks[0]);
    if |tracks| == 1 {
      assert tracks[1..] == [];
    } else {
      TracksLayout(tracks[1..], if t == 0 then 0 else t - 1);
      if t > 0 {
        var a, b := PutTrack(tracks[0]), PutTracks(tracks[1..]);
        assert (a + b)[21 * t..21 * t + 21] == b[21 * (t - 1)..21 * (t - 1) + 21];
      }
    }
  }

  lemma TrackLength(s: Segment)
    ensures |PutTrack(s)| == 21
  {
  }

  /** An entry: number, level, effective largest level, size, the synced flag, the path with its length, and the tracks
      with their number. */
  lemma RecordLayout(r: Record)
    requires RecordFits(r)
    ensures var b, p := PutRecord(r), |r.path|;
            && |b| >= 33 + p && Number(b[0..8]) == r.number && Number(b[8..12]) == ToUnsigned(r.level)
            && Number(b[12..16]) == ToUnsigned(r.largest) && Number(b[16..24]) == r.size && (b[24] == 1 <==> r.synced)
            && Number(b[25..29]) == p && b[29..29 + p] == r.path && Number(b[29 + p..33 + p]) == |r.tracks|
            && b[33 + p..] == PutTracks(r.tracks)
  {
    hide Number, Put, PutTracks;
    UnsignedFits(r.level);
    UnsignedFits(r.largest);
    NumberPut(r.number, 8);
    NumberPut(ToUnsigned(r.level), 4);
    NumberPut(ToUnsigned(r.largest), 4);
    NumberPut(r.size, 8);
    NumberPut(|r.path|, 4);
    NumberPut(|r.tracks|, 4);
    HeadLayout(r.number, ToUnsigned(r.level), ToUnsigned(r.largest), r.size);
    TailLayout(r.path, r.tracks);
    var head, tail := PutHead(r.number, ToUnsigned(r.level), ToUnsigned(r.largest), r.size), PutTail(r.path, r.tracks);
    var flag: Bytes := [if r.synced then 1 else 0];
    hide PutHead, PutTail;
    var b, p := PutRecord(r), |r.path|;
    assert b == head + (flag + tail);
    assert b[0..8] == head[0..8] && b[8..12] == head[8..12] && b[12..16] == head[12..16] && b[16..24] == head[16..24];
    assert b[24] == flag[0] && b[25..] == tail;
    assert b[25..29] == tail[0..4] && b[29..29 + p] == tail[4..4 + p] && b[29 + p..33 + p] == tail[4 + p..8 + p];
    assert b[33 + p..] == tail[8 + p..];
  }

  lemma HeadLayout(number: nat, level: nat, largest: nat, size: nat)
    ensures var b := PutHead(number, level, largest, size);
            && |b| == 24 && b[0..8] == Put(number, 8) && b[8..12] == Put(level, 4) && b[12..16] == Put(largest, 4)
            && b[16..24] == Put(size, 8)
  {
    hide Put;
  }

  lemma TailLayout(path: Bytes, tracks: seq<Segment>)
    ensures var b, p := PutTail(path, tracks), |path|;
            && |b| >= 8 + p && b[0..4] == Put(p, 4) && b[4..4 + p] == path && b[4 + p..8 + p] == Put(|tracks|, 4)
            && b[8 + p..] == PutTracks(tracks)
  {
    hide Put, PutTracks;
    var l, c, t := Put(|path|, 4), Put(|tracks|, 4), PutTracks(tracks);
    PartAt(l, path, c + t);
    PartAt(l + path, c, t);
    assert l + (path + (c + t)) == (l + path) + (c + t);
  }

  lemma {:induction false} NumbersLayout(numbers: seq<nat>, i: nat)
    requires i < |numbers|
    ensures |PutAll(numbers)| == 4 * |numbers| && PutAll(numbers)[4 * i..4 * i + 4] == Put(numbers[i], 4)
    decreases |numbers|
  {
    hide Put;
    if |numbers| == 1 {
      assert numbers[1..] == [];
    } else {
      NumbersLayout(numbers[1..], if i == 0 then 0 else i - 1);
      if i > 0 {
        var a, b := Put(numbers[0], 4), PutAll(numbers[1..]);
        assert (a + b)[4 * i..4 * i + 4] == b[4 * (i - 1)..4 * (i - 1) + 4];
      }
    }
  }

  /** The file: eight bytes of magic, then version, sector size, sectors of a zone, groups of a zone, sectors of a TOP
      and of a BOTTOM track, zones and the number of entries, four bytes each, then the entries. */
  lemma FileLayout(zones: nat, records: seq<Record>, i: nat)
    requires i < 8
    ensures var b := Encode(zones, records);
            && |b| >= 40 && b[..8] == [0x4B, 0x56, 0x49, 0x4D, 0x52, 0x33, 0x35, 0x41]
            && b[8 + 4 * i..12 + 4 * i] == Put([1, 512, 524288, 64, 3648, 4544, zones, |records|][i], 4)
            && b[40..] == PutRecords(records)
  {
    hide Put, PutRecords;
    var numbers := Geometry(zones) + [|records|];
    assert numbers == [1, 512, 524288, 64, 3648, 4544, zones, |records|];
    NumbersLayout(numbers, i);
    hide PutAll;
    var b, p, t := Encode(zones, records), PutAll(numbers), PutRecords(records);
    assert b == MAGIC + (p + t);
    assert b[8 + 4 * i..12 + 4 * i] == p[4 * i..4 * i + 4];
  }
}
