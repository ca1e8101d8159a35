/** What the operations of the store do to one SSTable. */
module KvimrFileSteps {
  import opened KvimrTracks
  import opened KvimrAllocator
  import opened KvimrPayload
  import opened KvimrRmw
  import opened KvimrApply
  import opened KvimrPersist
  import opened KvimrFiles

  // ---- Small steps on one SSTable

  lemma NewFileOk(device: Bytes)
    ensures FileOk(NEW_SSTABLE, device)
  {
  }

  lemma {:induction false} ContiguousAppend(updates: seq<Update>, data: Bytes, p: nat, more: Bytes)
    requires Contiguous(updates, data, p)
    ensures more != [] ==> Contiguous(updates + [Update(|data|, more)], data + more, p)
    decreases |updates|
  {
    var u := Update(|data|, more);
    if more == [] {
    } else if updates == [] {
      assert [u][1..] == [];
      assert Contiguous([], data + more, u.End());
    } else {
      assert (updates + [u])[1..] == updates[1..] + [u];
      ContiguousAppend(updates[1..], data, updates[0].End(), more);
    }
  }

  /** Appending to an SSTable. */
  function Appended(f: SSTable, more: Bytes): SSTable {
    f.(data := f.data + more, synced := false,
       pending := if more == [] then f.pending else f.pending + [Update(|f.data|, more)])
  }

  lemma AppendOk(f: SSTable, more: Bytes, device: Bytes)
    requires FileOk(f, device)
    ensures FileOk(Appended(f, more), device) && Appended(f, more).Persisted() == f.Persisted()
  {
    hide TrackBytes, StartOf, TracksOk, Contiguous, HoldsTrack;
    var f' := Appended(f, more);
    assert f.data + [] == f.data;
    ContiguousAppend(f.pending, f.data, f.Persisted(), more);
    assert f'.Persisted() == f.Persisted();
    AppendHolds(device, f.tracks, f.data, f.Persisted(), more);
  }

  lemma AppendHolds(device: Bytes, tracks: seq<Segment>, data: Bytes, p: nat, more: Bytes)
    requires TracksOk(tracks, |device|) && p <= |data| && Holds(device, tracks, data, p)
    ensures Holds(device, tracks, data + more, p)
  {
    hide TrackBytes, StartOf;
    forall i | 0 <= i < |tracks| ensures HoldsTrack(TrackBytes(device, tracks[i]), StartOf(tracks, i), data + more, p) {
      assert HoldsTrack(TrackBytes(device, tracks[i]), StartOf(tracks, i), data, p);
    }
  }

  /** An SSTable whose tracks have just been allocated holds nothing yet. */
  lemma PlacedOk(f: SSTable, segments: seq<Segment>, device: Bytes)
    requires FileOk(f, device) && f.tracks == [] && TracksOk(segments, |device|)
    ensures FileOk(f.(tracks := segments), device)
  {
  }

  /** All updates applied. */
  function Applied(f: SSTable): SSTable {
    f.(synced := true, pending := [])
  }

  lemma AppliedOk(f: SSTable, device: Bytes, device': Bytes)
    requires FileOk(f, device) && Written(device, device', f.tracks, f.data, f.Persisted()) && f.tracks != []
    ensures FileOk(Applied(f), device')
  {
    WrittenHolds(device, device', f.tracks, f.data, f.Persisted());
  }

  /** Tracks that the allocator hands out lie on the device. */
  lemma TookTracksOk(t: Tables, t': Tables, id: nat, segments: seq<Segment>, zones: nat, size: nat)
    requires Took(t, t', id, segments) && |t.top| == |t.bottom| == zones * GROUPS_PER_ZONE
    requires size >= zones * ZONE_SECTORS * SECTOR_SIZE
    ensures TracksOk(segments, size)
  {
    forall g | 0 <= g < |segments| ensures segments[g].Valid() && segments[g].Base() + segments[g].Capacity() <= size {
      var s := segments[g];
      assert s.Valid() && s.Index() < |t.Of(s.typ)|;
      assert s.zone < zones;
      TrackOnDevice(s, zones);
    }
  }

  lemma CapacityIsStart(segments: seq<Segment>)
    ensures Capacity(segments) == StartOf(segments, |segments|)
  {
    if segments != [] {
      var rest := segments[..|segments| - 1];
      CapacityIsStart(rest);
      StartOfPrefix(segments, |rest|, |rest|);
    }
  }

  lemma StartOfPrefix(segments: seq<Segment>, n: nat, i: nat)
    requires i <= n <= |segments|
    ensures StartOf(segments[..n], i) == StartOf(segments, i)
  {
  }

  // ---- Registration

  /** When giving `n` the number `id` keeps owners and numbers apart. */
  predicate RegisterOk(files: Files, n: Name, id: nat) {
    && (n in files && files[n].tracks != [] ==> id == files[n].number)
    && (forall m | m in files && m != n && files[m].number == id :: id == 0)
  }

  lemma RegisterOwners(files: Files, t: Tables, s2t: map<nat, seq<Segment>>, s2t': map<nat, seq<Segment>>, n: Name,
          f: SSTable)
    requires OwnersAgree(files, t, s2t) && f.tracks == (if n in files then files[n].tracks else [])
    requires s2t' == if f.number in s2t then s2t else s2t[f.number := []]
    ensures OwnersAgree(files[n := f], t, s2t') <==> RegisterOk(files, n, f.number)
  {
    var files' := files[n := f];
    if RegisterOk(files, n, f.number) {
      forall m, g | m in files' && 0 <= g < |files'[m].tracks|
        ensures OwnedAs(t, files'[m].tracks[g], files'[m].number)
      {
        assert OwnedAs(t, files[m].tracks[g], files[m].number);
      }
      RegisterNoneLost(files, t, n, f);
    } else if n in files && files[n].tracks != [] && f.number != files[n].number {
      assert OwnedAs(t, files[n].tracks[0], files[n].number);
      assert !OwnedAs(t, files'[n].tracks[0], files'[n].number);
    } else {
      var m :| m in files && m != n && files[m].number == f.number && f.number != 0;
      assert files'[m].number == files'[n].number;
    }
  }

  lemma RegisterNoneLost(files: Files, t: Tables, n: Name, f: SSTable)
    requires NoneLost(files, t) && f.tracks == (if n in files then files[n].tracks else [])
    requires RegisterOk(files, n, f.number)
    ensures NoneLost(files[n := f], t)
  {
    var files' := files[n := f];
    forall typ: TrackType, i: nat | i < |t.Of(typ)| && t.Of(typ)[i] != 0
      ensures HasTrack(files', t.Of(typ)[i], SegmentAt(typ, i))
    {
      var m := HasTrackFile(files, t, typ, i);
      assert m in files' && files'[m].tracks == files[m].tracks && files'[m].number == files[m].number;
    }
  }

  lemma EraseMap(files: Files, t: Tables, s2t: map<nat, seq<Segment>>, id: nat)
    requires OwnersAgree(files, t, s2t)
    ensures OwnersAgree(files, t, s2t - {id}) <==> forall m | m in files && files[m].number == id ::
              files[m].tracks == []
  {
    if m :| m in files && files[m].number == id && files[m].tracks != [] {
      assert id !in s2t - {id};
    }
  }
}
