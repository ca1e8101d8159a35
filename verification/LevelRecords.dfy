/** Files that hold records of many versions: to look into the newest file first is to find the newest version. */
module LevelRecords {
  import opened Options
  import opened LevelFiles
  import opened Lookups
  import R = Records

  /** The records of each file, by file number. */
  type Contents = map<nat, seq<R.Record>>

  function Of(f: File, data: Contents): seq<R.Record> {
    if f.number in data then data[f.number] else []
  }

  /** A file holds sorted records with keys of its range. */
  ghost predicate FileHolds(f: File, data: Contents) {
    f.number in data && R.Sorted(Of(f, data)) && forall r | r in Of(f, data) :: f.smallest <= r.key <= f.largest
  }

  ghost predicate AllHold(files: seq<File>, data: Contents) {
    forall f | f in files :: FileHolds(f, data)
  }

  /** All files, the newest first: level 0, then level by level. */
  function FilesOf(levels: Levels): seq<File> {
    if levels == [] then [] else levels[0] + FilesOf(levels[1..])
  }

  function RecordsOf(files: seq<File>, data: Contents): seq<R.Record> {
    if files == [] then [] else Of(files[0], data) + RecordsOf(files[1..], data)
  }

  /** Of two files with versions of a key the earlier has the newer ones. */
  ghost predicate InOrder(files: seq<File>, data: Contents) {
    forall i, j, r, q | 0 <= i < j < |files| && r in Of(files[i], data) && q in Of(files[j], data) && r.key == q.key ::
      r.seqno > q.seqno
  }

  lemma {:induction false} FilesJoin(a: Levels, b: Levels)
    ensures FilesOf(a + b) == FilesOf(a) + FilesOf(b)
    decreases |a|
  {
    if a == [] {
      assert a + b == b;
    } else {
      assert (a + b)[1..] == a[1..] + b;
      FilesJoin(a[1..], b);
    }
  }

  lemma {:induction false} RecordsJoin(a: seq<File>, b: seq<File>, data: Contents)
    ensures RecordsOf(a + b, data) == RecordsOf(a, data) + RecordsOf(b, data)
    decreases |a|
  {
    if a == [] {
      assert a + b == b;
    } else {
      assert (a + b)[1..] == a[1..] + b;
      RecordsJoin(a[1..], b, data);
    }
  }

  lemma {:induction false} RecordIn(files: seq<File>, data: Contents)
    ensures forall r :: r in RecordsOf(files, data) <==> exists i :: 0 <= i < |files| && r in Of(files[i], data)
    decreases |files|
  {
    if files != [] {
      RecordIn(files[1..], data);
      forall r ensures r in RecordsOf(files, data) <==> exists i :: 0 <= i < |files| && r in Of(files[i], data) {
        if i :| 0 <= i < |files| && r in Of(files[i], data) {
          assert i > 0 ==> files[1..][i - 1] == files[i];
        }
        if i :| 0 <= i < |files[1..]| && r in Of(files[1..][i], data) {
          assert files[i + 1] == files[1..][i];
        }
      }
    }
  }

  // ---- Order

  /** Of records of one key those of `a` are newer. */
  ghost predicate Newer(a: seq<File>, b: seq<File>, data: Contents) {
    forall r, q | r in RecordsOf(a, data) && q in RecordsOf(b, data) && r.key == q.key :: r.seqno > q.seqno
  }

  lemma OrderJoin(a: seq<File>, b: seq<File>, data: Contents)
    ensures InOrder(a + b, data) <==> InOrder(a, data) && InOrder(b, data) && Newer(a, b, data)
  {
    RecordIn(a, data);
    RecordIn(b, data);
    var ab := a + b;
    assert forall i | 0 <= i < |a| :: ab[i] == a[i];
    assert forall j | 0 <= j < |b| :: ab[|a| + j] == b[j];
    if InOrder(ab, data) {
      forall r, q | r in RecordsOf(a, data) && q in RecordsOf(b, data) && r.key == q.key ensures r.seqno > q.seqno {
        var i :| 0 <= i < |a| && r in Of(a[i], data);
        var j :| 0 <= j < |b| && q in Of(b[j], data);
        assert r in Of(ab[i], data) && q in Of(ab[|a| + j], data);
      }
      forall i, j, r, q | 0 <= i < j < |b| && r in Of(b[i], data) && q in Of(b[j], data) && r.key == q.key
        ensures r.seqno > q.seqno
      {
        assert r in Of(ab[|a| + i], data) && q in Of(ab[|a| + j], data);
      }
    } else if InOrder(a, data) && InOrder(b, data) && Newer(a, b, data) {
      OrderSplit(a, b, data);
    }
  }

  lemma OrderSplit(a: seq<File>, b: seq<File>, data: Contents)
    requires InOrder(a, data) && InOrder(b, data) && Newer(a, b, data)
    ensures InOrder(a + b, data)
  {
    RecordIn(a, data);
    RecordIn(b, data);
    var ab := a + b;
    forall i, j, r, q | 0 <= i < j < |ab| && r in Of(ab[i], data) && q in Of(ab[j], data) && r.key == q.key
      ensures r.seqno > q.seqno
    {
      if i >= |a| {
        assert ab[i] == b[i - |a|] && ab[j] == b[j - |a|];
      } else if j >= |a| {
        assert ab[i] == a[i] && ab[j] == b[j - |a|];
        assert r in RecordsOf(a, data) && q in RecordsOf(b, data);
      } else {
        assert ab[i] == a[i] && ab[j] == a[j];
      }
    }
  }

  lemma {:induction false} SelectRecords(files: seq<File>, s: set<nat>, chosen: bool, data: Contents, r: R.Record)
    requires r in RecordsOf(Select(files, s, chosen), data)
    ensures r in RecordsOf(files, data)
    decreases |files|
  {
    if files != [] {
      var rest := Select(files[1..], s, chosen);
      if (files[0].number in s) == chosen {
        assert ([files[0]] + rest)[1..] == rest;
        if r in RecordsOf(rest, data) {
          SelectRecords(files[1..], s, chosen, data, r);
        }
      } else {
        assert [] + rest == rest;
        SelectRecords(files[1..], s, chosen, data, r);
      }
    }
  }

  lemma {:induction false} SelectInOrder(files: seq<File>, s: set<nat>, chosen: bool, data: Contents)
    requires InOrder(files, data)
    ensures InOrder(Select(files, s, chosen), data)
    decreases |files|
  {
    hide InOrder;
    if files != [] {
      var rest := Select(files[1..], s, chosen);
      assert files == [files[0]] + files[1..];
      OrderJoin([files[0]], files[1..], data);
      SelectInOrder(files[1..], s, chosen, data);
      if (files[0].number in s) == chosen {
        forall r, q | r in RecordsOf([files[0]], data) && q in RecordsOf(rest, data) && r.key == q.key
          ensures r.seqno > q.seqno
        {
          SelectRecords(files[1..], s, chosen, data, q);
        }
        OrderJoin([files[0]], rest, data);
      } else {
        assert [] + rest == rest;
      }
    }
  }

  /** Files cut from sorted records are in order. */
  lemma {:induction false} CutInOrder(files: seq<File>, data: Contents)
    requires R.Sorted(RecordsOf(files, data))
    ensures InOrder(files, data)
    decreases |files|
  {
    hide InOrder;
    if files == [] {
      NoneInOrder(data);
    } else {
      var head, tail := Of(files[0], data), RecordsOf(files[1..], data);
      var all := head + tail;
      assert tail == all[|head|..];
      R.SortedTail(all, |head|);
      CutInOrder(files[1..], data);
      assert files == [files[0]] + files[1..];
      assert RecordsOf([files[0]], data) == head by {
        assert [files[0]][1..] == [];
        assert head + [] == head;
      }
      forall r, q | r in head && q in tail && r.key == q.key ensures r.seqno > q.seqno {
        var i :| 0 <= i < |head| && head[i] == r;
        var j :| 0 <= j < |tail| && tail[j] == q;
        assert all[i] == r && all[|head| + j] == q;
        assert R.Before(all[i], all[|head| + j]);
      }
      OneInOrder(files[0], data);
      OrderJoin([files[0]], files[1..], data);
    }
  }

  lemma NoneInOrder(data: Contents)
    ensures InOrder([], data)
  {
  }

  lemma OneInOrder(f: File, data: Contents)
    ensures InOrder([f], data)
  {
  }

  // ---- The versions of a key

  lemma {:induction false} VersionsSorted(recs: seq<R.Record>, k: Key)
    requires R.Sorted(recs)
    ensures R.History(R.VersionsOf(recs, k), k)
  {
    var _, g, _ := R.SplitAtKey(recs, k);
  }

  lemma {:induction false} VersionIn(recs: seq<R.Record>, k: Key, r: R.Record)
    ensures r in R.VersionsOf(recs, k) <==> r in recs && r.key == k
    decreases |recs|
  {
    if recs != [] {
      VersionIn(recs[1..], k, r);
    }
  }

  lemma HistoryJoin(a: seq<R.Record>, b: seq<R.Record>, k: Key)
    requires R.History(a, k) && R.History(b, k) && forall r, q | r in a && q in b :: r.seqno > q.seqno
    ensures R.History(a + b, k)
  {
  }

  /** In order, the versions of a key descend through the files. */
  lemma {:induction false} HistoryOf(files: seq<File>, data: Contents, k: Key)
    requires AllHold(files, data) && InOrder(files, data)
    ensures R.History(R.VersionsOf(RecordsOf(files, data), k), k)
    decreases |files|
  {
    if files != [] {
      var head, tail := Of(files[0], data), RecordsOf(files[1..], data);
      RestInOrder(files, data);
      HistoryOf(files[1..], data, k);
      R.VersionsOfConcat(head, tail, k);
      assert FileHolds(files[0], data);
      VersionsSorted(head, k);
      var a, b := R.VersionsOf(head, k), R.VersionsOf(tail, k);
      forall r, q | r in a && q in b ensures r.seqno > q.seqno {
        VersionIn(head, k, r);
        VersionIn(tail, k, q);
        RecordIn(files[1..], data);
        var j :| 0 <= j < |files[1..]| && q in Of(files[1..][j], data);
        assert files[1..][j] == files[j + 1];
      }
      HistoryJoin(a, b, k);
    }
  }

  lemma RestInOrder(files: seq<File>, data: Contents)
    requires files != [] && AllHold(files, data) && InOrder(files, data)
    ensures AllHold(files[1..], data) && InOrder(files[1..], data)
  {
    var rest := files[1..];
    assert forall i | 0 <= i < |rest| :: rest[i] == files[i + 1];
  }

  /** Descending versions are determined by which they are. */
  lemma {:induction false} SameHistory(a: seq<R.Record>, b: seq<R.Record>, k: Key)
    requires R.History(a, k) && R.History(b, k) && forall r :: r in a <==> r in b
    ensures a == b
    decreases |a|
  {
    NoneIn(b);
    if a != [] {
      assert a[0] in b && b != [];
      assert b[0] in a;
      assert a[0] == b[0];
      forall r ensures r in a[1..] <==> r in b[1..] {
        TailIn(a, k, r);
        TailIn(b, k, r);
      }
      SameHistory(a[1..], b[1..], k);
    }
  }

  lemma NoneIn(a: seq<R.Record>)
    ensures a != [] ==> a[0] in a
  {
  }

  lemma TailIn(a: seq<R.Record>, k: Key, r: R.Record)
    requires R.History(a, k) && a != []
    ensures r in a[1..] <==> r in a && r != a[0]
  {
  }

  /** What an iterator over some files yields: their records, sorted. */
  ghost predicate IsMerge(input: seq<R.Record>, files: seq<File>, data: Contents) {
    R.Sorted(input) && forall r :: r in input <==> r in RecordsOf(files, data)
  }

  lemma MergeVersions(input: seq<R.Record>, files: seq<File>, data: Contents, k: Key)
    requires AllHold(files, data) && InOrder(files, data) && IsMerge(input, files, data)
    ensures R.VersionsOf(input, k) == R.VersionsOf(RecordsOf(files, data), k)
  {
    VersionsSorted(input, k);
    HistoryOf(files, data, k);
    forall r ensures r in R.VersionsOf(input, k) <==> r in R.VersionsOf(RecordsOf(files, data), k) {
      VersionIn(input, k, r);
      VersionIn(RecordsOf(files, data), k, r);
    }
    SameHistory(R.VersionsOf(input, k), R.VersionsOf(RecordsOf(files, data), k), k);
  }

  // ---- What a read point finds in each file

  ghost function Keys(recs: seq<R.Record>): set<Key> {
    set r | r in recs :: r.key
  }

  ghost function Shown(recs: seq<R.Record>, s: nat): map<Key, R.Record> {
    map k | k in Keys(recs) && R.Newest(recs, k, s).Some? :: R.Newest(recs, k, s).value
  }

  ghost function At(data: Contents, s: nat): Data {
    map n | n in data :: Shown(data[n], s)
  }

  lemma {:induction false} NewestKey(recs: seq<R.Record>, k: Key, s: nat)
    ensures R.Newest(recs, k, s).Some? ==>
              var r := R.Newest(recs, k, s).value; r in recs && r.key == k && r.seqno <= s
    decreases |recs|
  {
    if recs != [] {
      NewestKey(recs[1..], k, s);
    }
  }

  lemma ShownIs(f: File, data: Contents, k: Key, s: nat)
    ensures Has(f, At(data, s), k) <==> R.Newest(Of(f, data), k, s).Some?
    ensures Has(f, At(data, s), k) ==> At(data, s)[f.number][k] == R.Newest(Of(f, data), k, s).value
  {
    NewestKey(Of(f, data), k, s);
  }

  lemma {:induction false} NewestJoin(a: seq<R.Record>, b: seq<R.Record>, k: Key, s: nat)
    ensures R.Newest(a + b, k, s) == if R.Newest(a, k, s).Some? then R.Newest(a, k, s) else R.Newest(b, k, s)
    decreases |a|
  {
    if a == [] {
      assert a + b == b;
    } else {
      assert (a + b)[1..] == a[1..] + b;
      NewestJoin(a[1..], b, k, s);
    }
  }

  /** A lookup file by file finds the first visible version of all records in that order. */
  lemma {:induction false} LookupIsNewest(files: seq<File>, data: Contents, k: Key, s: nat)
    ensures LookupIn(files, At(data, s), k) == R.Newest(RecordsOf(files, data), k, s)
    decreases |files|
  {
    hide At;
    if files != [] {
      ShownIs(files[0], data, k, s);
      LookupIsNewest(files[1..], data, k, s);
      NewestJoin(Of(files[0], data), RecordsOf(files[1..], data), k, s);
    }
  }

  lemma {:induction false} LookupFiles(levels: Levels, data: Data, k: Key)
    ensures Lookup(levels, data, k) == LookupIn(FilesOf(levels), data, k)
    decreases |levels|
  {
    if levels != [] {
      LookupFiles(levels[1..], data, k);
      LookupConcat(levels[0], FilesOf(levels[1..]), data, k);
    }
  }

  /** What a user sees. */
  ghost function Answered(found: Option<R.Record>): R.Answer {
    if found.Some? then R.Seen(found.value) else R.NotFound
  }

  /** A read of `k` at `s` over all levels. */
  ghost function ReadAt(levels: Levels, data: Contents, k: Key, s: nat): R.Answer {
    Answered(Lookup(levels, At(data, s), k))
  }

  /** It is a read over all records, newest file first. */
  lemma ReadIsRead(levels: Levels, data: Contents, k: Key, s: nat)
    ensures ReadAt(levels, data, k, s) == R.Read(RecordsOf(FilesOf(levels), data), [], k, s)
  {
    LookupFiles(levels, At(data, s), k);
    LookupIsNewest(FilesOf(levels), data, k, s);
  }
}
