/** The SSTables known to the store, the owners of their tracks and the device, as one invariant. */
module KvimrFiles {
  import opened KvimrTracks
  import opened KvimrAllocator
  import opened KvimrPayload
  import opened KvimrRmw
  import opened KvimrApply
  import opened KvimrPersist

  datatype SSTable = SSTable(
    number: nat, level: int, largest: int, synced: bool, data: Bytes, tracks: seq<Segment>, pending: seq<Update>)
  {
    /** Length of the prefix of the payload that has been applied to the tracks. */
    function Persisted(): nat {
      if pending == [] then |data| else pending[0].offset
    }

    /** The payload fits the tracks. */
    predicate Fits() {
      |data| <= StartOf(tracks, |tracks|)
    }
  }

  const NEW_SSTABLE := SSTable(0, -1, -1, false, [], [], [])

  /** File names are strings of bytes. */
  type Name = Bytes

  type Files = map<Name, SSTable>

  /** One SSTable: its tracks hold the persisted prefix of its payload, and its pending updates are the rest. */
  ghost predicate FileOk(f: SSTable, device: Bytes) {
    && TracksOk(f.tracks, |device|)
    && Contiguous(f.pending, f.data, f.Persisted())
    && f.Persisted() <= |f.data|
    && Holds(device, f.tracks, f.data, f.Persisted())
    && (f.tracks == [] ==> f.Persisted() == 0)
  }

  ghost predicate AllOk(files: Files, device: Bytes) {
    forall n | n in files :: FileOk(files[n], device)
  }

  /** Registered SSTables have different numbers. */
  ghost predicate NumbersDiffer(files: Files) {
    forall m, n | m in files && n in files && m != n && files[m].number == files[n].number :: files[m].number == 0
  }

  /** Every track of an SSTable is owned under its number. */
  ghost predicate TracksOwned(files: Files, t: Tables) {
    forall n, g | n in files && 0 <= g < |files[n].tracks| :: OwnedAs(t, files[n].tracks[g], files[n].number)
  }

  predicate OwnedAs(t: Tables, s: Segment, id: nat) {
    id != 0 && s.Valid() && s.Index() < |t.Of(s.typ)| && t.Of(s.typ)[s.Index()] == id
  }

  /** No track is lost: an owned track is a track of the SSTable that owns it. */
  ghost predicate NoneLost(files: Files, t: Tables) {
    forall typ: TrackType, i: nat | i < |t.Of(typ)| && t.Of(typ)[i] != 0 ::
      HasTrack(files, t.Of(typ)[i], SegmentAt(typ, i))
  }

  ghost predicate HasTrack(files: Files, id: nat, s: Segment) {
    exists n | n in files :: files[n].number == id && s in files[n].tracks
  }

  /** The track map of the store agrees with the SSTables. */
  ghost predicate MapAgrees(files: Files, s2t: map<nat, seq<Segment>>) {
    forall n | n in files && files[n].tracks != [] :: files[n].number in s2t && s2t[files[n].number] == files[n].tracks
  }

  ghost predicate OwnersAgree(files: Files, t: Tables, s2t: map<nat, seq<Segment>>) {
    NumbersDiffer(files) && TracksOwned(files, t) && NoneLost(files, t) && MapAgrees(files, s2t)
  }

  // ---- Allocation

  /** An SSTable without tracks, or a new one, gets tracks that were free. */
  lemma AllocateOwners(files: Files, t: Tables, t': Tables, s2t: map<nat, seq<Segment>>, n: Name, f: SSTable)
    requires OwnersAgree(files, t, s2t) && Took(t, t', f.number, f.tracks)
    requires n in files ==> files[n].tracks == []
    requires f.tracks != [] ==> f.number != 0
    requires forall m | m in files && m != n && files[m].number == f.number :: f.number == 0
    ensures OwnersAgree(files[n := f], t', s2t[f.number := f.tracks])
  {
    var files' := files[n := f];
    forall m, g | m in files' && 0 <= g < |files'[m].tracks|
      ensures OwnedAs(t', files'[m].tracks[g], files'[m].number)
    {
      if m == n {
        TookIsOwned(t, t', f.number, f.tracks, g);
      } else {
        assert OwnedAs(t, files[m].tracks[g], files[m].number);
        TookKeeps(t, t', f.number, f.tracks, files[m].tracks[g], files[m].number);
      }
    }
    AllocateNoneLost(files, t, t', n, f);
    forall m | m in files' && files'[m].tracks != [] ensures m != n ==> files'[m].number != f.number {
      assert OwnedAs(t', files'[m].tracks[0], files'[m].number);
    }
  }

  lemma AllocateNoneLost(files: Files, t: Tables, t': Tables, n: Name, f: SSTable)
    requires NoneLost(files, t) && Took(t, t', f.number, f.tracks) && (n in files ==> files[n].tracks == [])
    ensures NoneLost(files[n := f], t')
  {
    var files' := files[n := f];
    forall typ: TrackType, i: nat | i < |t'.Of(typ)| && t'.Of(typ)[i] != 0
      ensures HasTrack(files', t'.Of(typ)[i], SegmentAt(typ, i))
    {
      if SegmentAt(typ, i) in f.tracks {
        assert files'[n].number == f.number == t'.Of(typ)[i];
      } else {
        assert t'.Of(typ)[i] == t.Of(typ)[i];
        var m := HasTrackFile(files, t, typ, i);
        assert m in files' && files'[m] == files[m];
      }
    }
  }

  lemma TookIsOwned(t: Tables, t': Tables, id: nat, segments: seq<Segment>, g: nat)
    requires Took(t, t', id, segments) && g < |segments| && id != 0
    ensures OwnedAs(t', segments[g], id)
  {
    var s := segments[g];
    assert s.Valid() && s.Index() < |t.Of(s.typ)|;
    assert SegmentAt(s.typ, s.Index()) in segments;
  }

  lemma TookKeeps(t: Tables, t': Tables, id: nat, segments: seq<Segment>, s: Segment, owner: nat)
    requires Took(t, t', id, segments) && OwnedAs(t, s, owner)
    ensures OwnedAs(t', s, owner)
  {
    assert SegmentAt(s.typ, s.Index()) == s;
    assert s !in segments;
  }

  // ---- Release

  function FreedTables(t: Tables, id: nat): Tables {
    Tables(Freed(t.top, id), Freed(t.bottom, id))
  }

  /** Releasing a number frees the tracks of one SSTable and of no other. */
  lemma ReleaseOwners(files: Files, t: Tables, s2t: map<nat, seq<Segment>>, n: Name, id: nat, files': Files)
    requires OwnersAgree(files, t, s2t) && n in files && files[n].number == id && id != 0
    requires files' == files - {n}
             || (n in files' && files' == files[n := files'[n]] && files'[n].number == id && files'[n].tracks == [])
    ensures OwnersAgree(files', FreedTables(t, id), s2t - {id})
  {
    var t' := FreedTables(t, id);
    forall m, g | m in files' && 0 <= g < |files'[m].tracks|
      ensures OwnedAs(t', files'[m].tracks[g], files'[m].number)
    {
      assert m != n && OwnedAs(t, files[m].tracks[g], files[m].number);
    }
    forall typ: TrackType, i: nat | i < |t'.Of(typ)| && t'.Of(typ)[i] != 0
      ensures HasTrack(files', t'.Of(typ)[i], SegmentAt(typ, i))
    {
      assert t'.Of(typ)[i] == t.Of(typ)[i] != id;
      var m := HasTrackFile(files, t, typ, i);
      assert m in files' && files'[m] == files[m];
    }
  }

  lemma HasTrackFile(files: Files, t: Tables, typ: TrackType, i: nat) returns (n: Name)
    requires NoneLost(files, t) && i < |t.Of(typ)| && t.Of(typ)[i] != 0
    ensures n in files && files[n].number == t.Of(typ)[i] && SegmentAt(typ, i) in files[n].tracks
  {
    assert HasTrack(files, t.Of(typ)[i], SegmentAt(typ, i));
    n :| n in files && files[n].number == t.Of(typ)[i] && SegmentAt(typ, i) in files[n].tracks;
  }

  // ---- Other changes of the table of SSTables

  /** A change that keeps the number and the tracks of one SSTable, or adds an unregistered one. */
  lemma SameOwners(files: Files, t: Tables, s2t: map<nat, seq<Segment>>, n: Name, f: SSTable)
    requires OwnersAgree(files, t, s2t)
    requires if n in files then f.number == files[n].number && f.tracks == files[n].tracks
             else f.number == 0 && f.tracks == []
    ensures OwnersAgree(files[n := f], t, s2t)
  {
    var files' := files[n := f];
    forall m, g | m in files' && 0 <= g < |files'[m].tracks| ensures OwnedAs(t, files'[m].tracks[g], files'[m].number) {
      assert OwnedAs(t, files[m].tracks[g], files[m].number);
    }
    forall typ: TrackType, i: nat | i < |t.Of(typ)| && t.Of(typ)[i] != 0
      ensures HasTrack(files', t.Of(typ)[i], SegmentAt(typ, i))
    {
      var m := HasTrackFile(files, t, typ, i);
      assert m in files' && files'[m].tracks == files[m].tracks;
    }
  }

  // ---- Writes to the device

  /** A track of another SSTable is not among the tracks being written. */
  lemma OtherFile(files: Files, t: Tables, n: Name, m: Name, g: nat)
    requires NumbersDiffer(files) && TracksOwned(files, t) && n in files && m in files && n != m
    requires g < |files[m].tracks|
    ensures files[m].tracks[g] !in files[n].tracks
  {
    var s := files[m].tracks[g];
    assert OwnedAs(t, s, files[m].number);
    forall h | 0 <= h < |files[n].tracks| ensures files[n].tracks[h] != s {
      assert OwnedAs(t, files[n].tracks[h], files[n].number);
    }
  }

  lemma OutsideTrack(was: Bytes, dev: Bytes, tracks: seq<Segment>, o: Segment)
    requires Outside(was, dev, tracks) && o.Valid() && o.Base() + o.Capacity() <= |was| && o !in tracks
    requires forall i | 0 <= i < |tracks| :: tracks[i].Valid()
    ensures TrackBytes(dev, o) == TrackBytes(was, o)
  {
    forall x | o.Base() <= x < o.Base() + o.Capacity() ensures dev[x] == was[x] {
      if InTracks(tracks, x) {
        var i :| 0 <= i < |tracks| && InTrack(tracks[i], x);
        DifferentTracks(tracks[i], o);
        assert false;
      }
    }
  }

  /** Writing one SSTable's tracks leaves the payloads of all others in place. */
  lemma WriteKeepsOthers(files: Files, t: Tables, n: Name, device: Bytes, device': Bytes)
    requires NumbersDiffer(files) && TracksOwned(files, t) && n in files && AllOk(files, device)
    requires Outside(device, device', files[n].tracks)
    ensures forall m | m in files && m != n :: FileOk(files[m], device')
  {
    forall m | m in files && m != n ensures FileOk(files[m], device') {
      assert FileOk(files[m], device) && FileOk(files[n], device);
      var f := files[m];
      forall g | 0 <= g < |f.tracks| ensures TrackBytes(device', f.tracks[g]) == TrackBytes(device, f.tracks[g]) {
        OtherFile(files, t, n, m, g);
        OutsideTrack(device, device', files[n].tracks, f.tracks[g]);
      }
      SameHolds(device, device', f.tracks, f.data, f.Persisted());
    }
  }

  lemma SameHolds(was: Bytes, dev: Bytes, tracks: seq<Segment>, data: Bytes, p: nat)
    requires |was| == |dev| && TracksOk(tracks, |was|) && p <= |data| && Holds(was, tracks, data, p)
    requires forall g | 0 <= g < |tracks| :: TrackBytes(dev, tracks[g]) == TrackBytes(was, tracks[g])
    ensures Holds(dev, tracks, data, p)
  {
    hide HoldsTrack, StartOf, TrackBytes;
    forall i | 0 <= i < |tracks| ensures HoldsTrack(TrackBytes(dev, tracks[i]), StartOf(tracks, i), data, p) {
      assert HoldsTrack(TrackBytes(was, tracks[i]), StartOf(tracks, i), data, p);
    }
  }
}
