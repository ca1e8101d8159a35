/** What the metadata say about the SSTables of a store, and what comes back from them. */
module KvimrRecovery {
  import opened KvimrTracks
  import opened KvimrAllocator
  import opened KvimrPayload
  import opened KvimrRmw
  import opened KvimrPersist
  import opened KvimrFiles
  import opened KvimrMetadata

  /** The entry of one SSTable. */
  function RecordOf(db: Name, n: Name, f: SSTable): Record {
    Record(Relative(db, n), f.number, f.level, f.largest, |f.data|, f.synced, f.tracks)
  }

  // ---- The order of the names

  /** The order of the source's map: byte by byte. */
  predicate Less(a: Name, b: Name) {
    b != [] && (a == [] || a[0] < b[0] || (a[0] == b[0] && Less(a[1..], b[1..])))
  }

  lemma {:induction false} LessTotal(a: Name, b: Name)
    ensures a == b || Less(a, b) || Less(b, a)
    ensures !(Less(a, b) && Less(b, a)) && (a == b ==> !Less(a, b))
    decreases |a|
  {
    if a != [] && b != [] {
      assert a == [a[0]] + a[1..] && b == [b[0]] + b[1..];
      LessTotal(a[1..], b[1..]);
    }
  }

  lemma {:induction false} LessChain(a: Name, b: Name, c: Name)
    requires Less(a, b) && Less(b, c)
    ensures Less(a, c)
    decreases |a|
  {
    if a != [] && a[0] == b[0] == c[0] {
      LessChain(a[1..], b[1..], c[1..]);
    }
  }

  predicate IsLeast(n: Name, names: set<Name>) {
    n in names && forall m | m in names && m != n :: Less(n, m)
  }

  lemma {:induction false} LeastExists(names: set<Name>) returns (n: Name)
    requires names != {}
    ensures IsLeast(n, names)
    decreases |names|
  {
    n :| n in names;
    if names != {n} {
      var m := LeastExists(names - {n});
      LessTotal(n, m);
      forall k | k in names && k != n && k != m && Less(n, m) ensures Less(n, k) {
        LessChain(n, m, k);
      }
      if !Less(n, m) {
        n := m;
      }
    }
  }

  ghost predicate Ascending(names: seq<Name>) {
    forall j, k | 0 <= j < k < |names| :: Less(names[j], names[k])
  }

  /** Every SSTable once, in the order of their names. */
  ghost predicate Lists(names: seq<Name>, files: Files) {
    && |names| == |files| && Ascending(names)
    && (forall k | 0 <= k < |names| :: names[k] in files)
    && (forall j, k | 0 <= j < k < |names| :: names[j] != names[k])
    && (forall n | n in files :: n in names)
  }

  /** Every SSTable but those of `rest` once, those of `rest` being greater. */
  ghost predicate ListsBut(names: seq<Name>, files: Files, rest: set<Name>) {
    && rest <= files.Keys && |names| + |rest| == |files| && Ascending(names)
    && (forall k, n | 0 <= k < |names| && n in rest :: Less(names[k], n))
    && (forall k | 0 <= k < |names| :: names[k] in files && names[k] !in rest)
    && (forall j, k | 0 <= j < k < |names| :: names[j] != names[k])
    && (forall n | n in files && n !in rest :: n in names)
  }

  lemma ListsNext(names: seq<Name>, files: Files, rest: set<Name>, n: Name)
    requires ListsBut(names, files, rest) && IsLeast(n, rest)
    ensures ListsBut(names + [n], files, rest - {n})
  {
  }

  lemma NoneListed(db: Name, files: Files)
    ensures ListsBut([], files, files.Keys) && RecordsOf(db, [], files) == []
  {
  }

  lemma AllListed(names: seq<Name>, files: Files)
    requires ListsBut(names, files, {})
    ensures Lists(names, files)
  {
  }

  lemma RecordsNext(db: Name, names: seq<Name>, files: Files, rest: set<Name>, n: Name)
    requires ListsBut(names, files, rest) && n in files
    ensures RecordsOf(db, names + [n], files) == RecordsOf(db, names, files) + [RecordOf(db, n, files[n])]
  {
    hide RecordOf;
  }

  function RecordsOf(db: Name, names: seq<Name>, files: Files): (r: seq<Record>)
    requires forall k | 0 <= k < |names| :: names[k] in files
    ensures |r| == |names| && forall k | 0 <= k < |names| :: r[k] == RecordOf(db, names[k], files[names[k]])
  {
    seq(|names|, k requires 0 <= k < |names| => RecordOf(db, names[k], files[names[k]]))
  }

  /** The metadata file is that of these SSTables. */
  ghost predicate Describes(bytes: Bytes, zones: nat, db: Name, names: seq<Name>, files: Files) {
    Lists(names, files) && bytes == Encode(zones, RecordsOf(db, names, files))
  }

  /** Every number of these SSTables has room in its field of the metadata. */
  ghost predicate Small(db: Name, files: Files) {
    && |files| < Pow256(4)
    && forall n | n in files :: RecordFits(RecordOf(db, n, files[n]))
  }

  lemma SmallWritable(zones: nat, db: Name, names: seq<Name>, files: Files)
    requires Lists(names, files) && Small(db, files) && zones < Pow256(4)
    ensures Writable(zones, RecordsOf(db, names, files))
  {
    hide Pow256, RecordFits, RecordOf;
  }

  /** SSTables whose tracks hold their persisted bytes, as the store keeps them. */
  ghost predicate Consistent(saved: Files, t: Tables, s2t: map<nat, seq<Segment>>, device: Bytes, zones: nat) {
    AllOk(saved, device) && OwnersAgree(saved, t, s2t) && |t.top| == |t.bottom| == zones * GROUPS_PER_ZONE
  }

  /** An SSTable after recovery: the same tracks and size, and the persisted bytes. */
  predicate Recovered(f: SSTable, g: SSTable) {
    && g == f.(data := g.data, pending := []) && |g.data| == |f.data|
    && (f.Persisted() <= |f.data| ==> g.data[..f.Persisted()] == f.data[..f.Persisted()])
  }

  // ---- Loading one SSTable after another

  /** The SSTables loaded so far, under the names they had. */
  ghost predicate LoadedTo(loaded: Files, saved: Files, names: seq<Name>, k: nat)
    requires k <= |names|
  {
    && (forall n | n in loaded :: n in names[..k] && n in saved && Recovered(saved[n], loaded[n]))
    && (forall j | 0 <= j < k :: names[j] in loaded)
  }

  /** The next one has not been loaded, and its name is greater than those that were. */
  ghost predicate Expected(n: Name, saved: Files, loaded: Files) {
    n in saved && n !in loaded && forall m | m in loaded :: m in saved && Recovered(saved[m], loaded[m]) && Less(m, n)
  }

  lemma NextExpected(names: seq<Name>, saved: Files, loaded: Files, k: nat)
    requires Lists(names, saved) && k < |names| && LoadedTo(loaded, saved, names, k)
    ensures Expected(names[k], saved, loaded)
  {
    hide Recovered;
  }

  lemma LoadedNext(loaded: Files, saved: Files, names: seq<Name>, k: nat, f: SSTable)
    requires Lists(names, saved) && k < |names| && LoadedTo(loaded, saved, names, k) && Recovered(saved[names[k]], f)
    ensures LoadedTo(loaded[names[k] := f], saved, names, k + 1)
  {
    hide Recovered, Ascending;
    var loaded' := loaded[names[k] := f];
    assert names[..k + 1] == names[..k] + [names[k]];
    forall n | n in loaded' ensures n in names[..k + 1] && n in saved && Recovered(saved[n], loaded'[n]) {
      assert n == names[k] || n in loaded;
    }
    forall j | 0 <= j < k + 1 ensures names[j] in loaded' {
      assert j == k || names[j] in loaded;
    }
  }

  /** The table of the store: under each name built from a path the SSTable whose own name is the greatest. */
  ghost predicate Images(files: Files, loaded: Files, db: Name) {
    && (forall n | n in loaded :: Home(db, n) in files)
    && (forall m | m in files :: ComesFrom(files[m], loaded, db, m))
  }

  ghost predicate ComesFrom(f: SSTable, loaded: Files, db: Name, m: Name) {
    exists n :: IsLast(loaded, db, m, n) && loaded[n] == f
  }

  ghost predicate IsLast(loaded: Files, db: Name, m: Name, n: Name) {
    n in loaded && Home(db, n) == m && forall k | k in loaded && Home(db, k) == m && k != n :: Less(k, n)
  }

  lemma ImagesNext(files: Files, loaded: Files, db: Name, n: Name, f: SSTable)
    requires Images(files, loaded, db) && forall m | m in loaded :: m != n && Less(m, n)
    ensures Images(files[Home(db, n) := f], loaded[n := f], db)
  {
    hide Home;
    var files', loaded' := files[Home(db, n) := f], loaded[n := f];
    forall m | m in files' ensures ComesFrom(files'[m], loaded', db, m) {
      if m == Home(db, n) {
        assert IsLast(loaded', db, m, n);
      } else {
        assert ComesFrom(files[m], loaded, db, m);
        var k :| IsLast(loaded, db, m, k) && loaded[k] == files[m];
        assert IsLast(loaded', db, m, k);
      }
    }
  }

  lemma EntryRestorable(n: Name, saved: Files, t: Tables, map_: map<nat, seq<Segment>>, loaded: Files, now: Tables,
                        s2t: map<nat, seq<Segment>>, device: Bytes, zones: nat)
    requires Consistent(saved, t, map_, device, zones) && Expected(n, saved, loaded)
    requires OwnersAgree(loaded, now, s2t) && |now.top| == |now.bottom| == zones * GROUPS_PER_ZONE
    ensures Restorable(now, zones, saved[n].tracks) && (saved[n].tracks != [] ==> saved[n].number != 0)
  {
    var f := saved[n];
    assert FileOk(f, device);
    forall g | 0 <= g < |f.tracks|
      ensures f.tracks[g].zone < zones && f.tracks[g].Valid() && f.tracks[g].Index() < |now.Of(f.tracks[g].typ)|
      ensures now.Of(f.tracks[g].typ)[f.tracks[g].Index()] == 0 && f.number != 0
    {
      var s := f.tracks[g];
      assert OwnedAs(t, f.tracks[g], f.number);
      assert s.zone < zones;
      forall m | m in loaded ensures s !in loaded[m].tracks {
        OtherFile(saved, t, m, n, g);
      }
      if now.Of(s.typ)[s.Index()] != 0 {
        var _ := HasTrackFile(loaded, now, s.typ, s.Index());
      }
    }
    if f.tracks != [] {
      assert OwnedAs(t, f.tracks[0], f.number);
    }
  }

  lemma EntryLoaded(n: Name, saved: Files, t: Tables, map_: map<nat, seq<Segment>>, loaded: Files, before: Tables,
          now: Tables, s2t: map<nat, seq<Segment>>, device: Bytes, zones: nat, f: SSTable)
    requires Consistent(saved, t, map_, device, zones) && Expected(n, saved, loaded)
    requires AllOk(loaded, device) && OwnersAgree(loaded, before, s2t) && Took(before, now, f.number, f.tracks)
    requires f == saved[n].(data := f.data, pending := [])
    requires |f.data| == |saved[n].data| <= StartOf(f.tracks, |f.tracks|)
    requires TracksOk(f.tracks, |device|) && Holds(device, f.tracks, f.data, |f.data|)
    requires f.tracks != [] ==> f.number != 0
    ensures Recovered(saved[n], f)
    ensures AllOk(loaded[n := f], device) && OwnersAgree(loaded[n := f], now, s2t[f.number := f.tracks])
  {
    var s := saved[n];
    assert FileOk(s, device);
    hide Took, TracksOwned, NoneLost, MapAgrees, TracksOk, StartOf;
    SamePrefix(device, f.tracks, f.data, s.data, s.Persisted());
    assert f.tracks == [] ==> |f.data| == 0 by {
      assert StartOf([], 0) == 0;
    }
    assert FileOk(f, device);
    forall m | m in loaded && m != n && loaded[m].number == f.number ensures f.number == 0 {
      assert saved[m].number == loaded[m].number;
    }
    AllocateOwners(loaded, before, now, s2t, n, f);
  }

  /** What is read back agrees with the payload as far as it was applied. */
  lemma SamePrefix(device: Bytes, tracks: seq<Segment>, a: Bytes, b: Bytes, p: nat)
    requires TracksOk(tracks, |device|) && |a| == |b| <= StartOf(tracks, |tracks|) && p <= |b|
    requires Holds(device, tracks, a, |a|) && Holds(device, tracks, b, p)
    ensures a[..p] == b[..p]
  {
    HoldsPrefix(device, tracks, a, p);
    HoldsSlice(device, tracks, b, p);
    PayloadUnique(device, tracks, a[..p], b[..p]);
  }

  lemma HoldsPrefix(device: Bytes, tracks: seq<Segment>, a: Bytes, p: nat)
    requires TracksOk(tracks, |device|) && p <= |a| && Holds(device, tracks, a, |a|)
    ensures Holds(device, tracks, a[..p], p)
  {
    hide TrackBytes, StartOf;
    forall i | 0 <= i < |tracks| ensures HoldsTrack(TrackBytes(device, tracks[i]), StartOf(tracks, i), a[..p], p) {
      assert HoldsTrack(TrackBytes(device, tracks[i]), StartOf(tracks, i), a, |a|);
    }
  }

  lemma HoldsSlice(device: Bytes, tracks: seq<Segment>, a: Bytes, p: nat)
    requires TracksOk(tracks, |device|) && p <= |a| && Holds(device, tracks, a, p)
    ensures Holds(device, tracks, a[..p], p)
  {
    hide TrackBytes, StartOf;
    forall i | 0 <= i < |tracks| ensures HoldsTrack(TrackBytes(device, tracks[i]), StartOf(tracks, i), a[..p], p) {
      assert HoldsTrack(TrackBytes(device, tracks[i]), StartOf(tracks, i), a, p);
    }
  }

  // ---- The names

  /** No two of the names come back as one. */
  ghost predicate Apart(db: Name, files: Files) {
    forall m, n | m in files && n in files && Home(db, m) == Home(db, n) :: m == n
  }

  /** Of the SSTables that come back under one name only the last may have tracks. */
  ghost predicate PlacedLast(db: Name, files: Files) {
    forall m, n | m in files && n in files && Home(db, m) == Home(db, n) && Less(m, n) :: files[m].tracks == []
  }

  ghost function Homes(db: Name, files: Files): set<Name> {
    set n | n in files :: Home(db, n)
  }

  ghost predicate AllInDirectory(db: Name, files: Files) {
    forall n | n in files :: InDirectory(db, n)
  }

  /** The names that come back are those saved exactly if every name is in the directory of the database. */
  lemma NamesComeBack(db: Name, files: Files)
    ensures Homes(db, files) == files.Keys <==> AllInDirectory(db, files)
    ensures AllInDirectory(db, files) ==> Apart(db, files) && forall n | n in files :: Home(db, n) == n
  {
    hide InDirectory, Home;
    if AllInDirectory(db, files) {
      forall n | n in files ensures Home(db, n) == n {
        PathRoundTrip(db, n);
      }
    }
    if Homes(db, files) == files.Keys {
      forall n | n in files ensures InDirectory(db, n) {
        assert n in Homes(db, files);
        var k :| k in files && Home(db, k) == n;
        assert k in Homes(db, files);
        var j :| j in files && Home(db, j) == k;
        HomeSettles(db, j);
        PathRoundTrip(db, n);
      }
    }
  }

  /** What comes back under a name is the last SSTable with that name. */
  lemma UnderName(files: Files, loaded: Files, db: Name, n: Name) returns (last: Name)
    requires Images(files, loaded, db) && n in loaded
    ensures Home(db, n) in files && last in loaded && files[Home(db, n)] == loaded[last]
    ensures Home(db, last) == Home(db, n)
    ensures last == n || Less(n, last)
  {
    assert ComesFrom(files[Home(db, n)], loaded, db, Home(db, n));
    last :| IsLast(loaded, db, Home(db, n), last) && loaded[last] == files[Home(db, n)];
  }

  lemma FromName(files: Files, loaded: Files, db: Name, m: Name) returns (n: Name)
    requires Images(files, loaded, db) && m in files
    ensures n in loaded && Home(db, n) == m && loaded[n] == files[m]
  {
    assert ComesFrom(files[m], loaded, db, m);
    n :| IsLast(loaded, db, m, n) && loaded[n] == files[m];
  }

  /** If no SSTable with tracks loses its place, the table under the new names is as good as that under the old ones. */
  lemma RenamedOwners(files: Files, loaded: Files, db: Name, t: Tables, s2t: map<nat, seq<Segment>>, device: Bytes)
    requires Images(files, loaded, db) && PlacedLast(db, loaded)
    requires AllOk(loaded, device) && OwnersAgree(loaded, t, s2t)
    ensures AllOk(files, device) && OwnersAgree(files, t, s2t)
  {
    hide Home, FileOk, Images;
    forall m | m in files ensures FileOk(files[m], device) {
      var n := FromName(files, loaded, db, m);
    }
    forall m, g | m in files && 0 <= g < |files[m].tracks| ensures OwnedAs(t, files[m].tracks[g], files[m].number) {
      var n := FromName(files, loaded, db, m);
      assert OwnedAs(t, loaded[n].tracks[g], loaded[n].number);
    }
    forall typ: TrackType, i: nat | i < |t.Of(typ)| && t.Of(typ)[i] != 0
      ensures HasTrack(files, t.Of(typ)[i], SegmentAt(typ, i))
    {
      var n := HasTrackFile(loaded, t, typ, i);
      var last := UnderName(files, loaded, db, n);
      assert files[Home(db, n)] == loaded[n];
    }
    RenamedNumbers(files, loaded, db);
    forall m | m in files && files[m].tracks != []
      ensures files[m].number in s2t && s2t[files[m].number] == files[m].tracks
    {
      var n := FromName(files, loaded, db, m);
    }
  }

  /** If one SSTable takes the place of another that has tracks, these tracks are lost. */
  lemma PlacedStays(files: Files, loaded: Files, db: Name, t: Tables, s2t: map<nat, seq<Segment>>, n: Name)
    requires Images(files, loaded, db) && OwnersAgree(loaded, t, s2t) && NoneLost(files, t)
    requires n in loaded && loaded[n].tracks != []
    ensures files[Home(db, n)] == loaded[n] && IsLast(loaded, db, Home(db, n), n)
  {
    hide Home;
    var s := loaded[n].tracks[0];
    assert OwnedAs(t, s, loaded[n].number);
    assert SegmentAt(s.typ, s.Index()) == s;
    var m := HasTrackFile(files, t, s.typ, s.Index());
    assert ComesFrom(files[m], loaded, db, m);
    var k :| IsLast(loaded, db, m, k) && loaded[k] == files[m];
    assert k == n;
  }

  lemma RenamedNumbers(files: Files, loaded: Files, db: Name)
    requires Images(files, loaded, db) && NumbersDiffer(loaded)
    ensures NumbersDiffer(files)
  {
    hide Home, Images;
    forall m, n | m in files && n in files && m != n && files[m].number == files[n].number
      ensures files[m].number == 0
    {
      var j := FromName(files, loaded, db, m);
      var k := FromName(files, loaded, db, n);
      assert loaded[j].number == loaded[k].number;
    }
  }

  lemma ImagesKeys(files: Files, loaded: Files, db: Name, saved: Files)
    requires Images(files, loaded, db) && loaded.Keys == saved.Keys
    ensures files.Keys == Homes(db, saved)
  {
    hide Home;
    forall m | m in files ensures m in Homes(db, saved) {
      var n := FromName(files, loaded, db, m);
    }
  }

  lemma AllLoaded(loaded: Files, saved: Files, names: seq<Name>)
    requires Lists(names, saved) && LoadedTo(loaded, saved, names, |names|)
    ensures BackAgain(saved, loaded)
  {
    hide Recovered;
    forall n | n in saved ensures n in loaded {
      var k :| 0 <= k < |names| && names[k] == n;
      assert names[k] in loaded;
    }
  }

  /** All SSTables are back under the names they had, with their persisted bytes. */
  ghost predicate BackAgain(was: Files, files: Files) {
    files.Keys == was.Keys && forall n | n in was :: Recovered(was[n], files[n])
  }

  /** Each SSTable is back under the name built from its path. */
  ghost predicate BackUnder(db: Name, was: Files, files: Files) {
    forall n | n in was :: Home(db, n) in files && Recovered(was[n], files[Home(db, n)])
  }

  lemma LostOtherwise(files: Files, loaded: Files, db: Name, t: Tables, s2t: map<nat, seq<Segment>>)
    requires Images(files, loaded, db) && OwnersAgree(loaded, t, s2t) && NoneLost(files, t)
    ensures PlacedLast(db, loaded)
  {
    hide Home, Images, OwnersAgree, NoneLost;
    forall m, n | m in loaded && n in loaded && Home(db, m) == Home(db, n) && Less(m, n)
      ensures loaded[m].tracks == []
    {
      if loaded[m].tracks != [] {
        PlacedStays(files, loaded, db, t, s2t, m);
        LessTotal(m, n);
      }
    }
  }

  /** What comes back: every SSTable under the name built from its path if no two names are built alike; a store that is
      as good as before exactly if no SSTable with tracks loses its place; every SSTable under its own name exactly if
      all names are in the directory. */
  lemma ComeBack(files: Files, loaded: Files, was: Files, db: Name, t: Tables, s2t: map<nat, seq<Segment>>,
          device: Bytes)
    requires Images(files, loaded, db) && AllOk(loaded, device) && OwnersAgree(loaded, t, s2t)
    requires BackAgain(was, loaded)
    ensures files.Keys == Homes(db, was)
    ensures Apart(db, was) ==> BackUnder(db, was, files)
    ensures AllOk(files, device) && OwnersAgree(files, t, s2t) <==> PlacedLast(db, was)
    ensures BackAgain(was, files) <==> AllInDirectory(db, was)
  {
    SameTracks(was, loaded, db);
    if OwnersAgree(files, t, s2t) {
      LostOtherwise(files, loaded, db, t, s2t);
    }
    hide Home, Recovered, OwnersAgree, AllOk, InDirectory, PlacedLast, Images;
    ImagesKeys(files, loaded, db, was);
    NamesComeBack(db, was);
    if PlacedLast(db, was) {
      RenamedOwners(files, loaded, db, t, s2t, device);
    }
    if Apart(db, was) {
      forall n | n in was ensures Home(db, n) in files && files[Home(db, n)] == loaded[n] {
        var last := UnderName(files, loaded, db, n);
      }
    }
  }

  lemma SameTracks(was: Files, loaded: Files, db: Name)
    requires BackAgain(was, loaded)
    ensures PlacedLast(db, was) <==> PlacedLast(db, loaded)
  {
    hide Home;
  }

  lemma AllFit(names: seq<Name>, files: Files)
    requires Lists(names, files) && forall j | 0 <= j < |names| :: files[names[j]].Fits()
    ensures forall n | n in files :: files[n].Fits()
  {
    hide SSTable.Fits;
  }
}
