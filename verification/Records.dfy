/** Internal keys, sorted record streams and snapshot reads.

    A user key is an integer: the code below only ever compares user keys, so
    any total order given by the column family's comparator can be numbered this way.
 */
module Records {
  import opened Options

  /** Largest sequence number, `kMaxSequenceNumber`: sequence numbers have 56 bits. */
  const MAX_SEQ: nat := 0xFF_FFFF_FFFF_FFFF

  type Key = int
  type Bytes = string

  /** The value types that the compaction iterator handles without a helper. */
  datatype Kind = Value | Deletion | SingleDeletion

  datatype Record = Record(key: Key, seqno: nat, kind: Kind, value: Bytes)

  /** Internal key order: user key ascending, then sequence number descending. */
  predicate Before(a: Record, b: Record) {
    a.key < b.key || (a.key == b.key && a.seqno > b.seqno)
  }

  ghost predicate Sorted(recs: seq<Record>) {
    forall i, j | 0 <= i < j < |recs| :: Before(recs[i], recs[j])
  }

  ghost predicate Leads(p: Record, rest: seq<Record>) {
    forall i | 0 <= i < |rest| :: Before(p, rest[i])
  }

  lemma SortedTail(rest: seq<Record>, n: nat)
    requires Sorted(rest) && n <= |rest|
    ensures Sorted(rest[n..])
    ensures n >= 1 ==> Leads(rest[n - 1], rest[n..])
  {
  }

  /** The first record, in the given order, of key `k` that a read at `s` may see. */
  ghost function Newest(recs: seq<Record>, k: Key, s: nat): Option<Record> {
    if recs == [] then None
    else if recs[0].key == k && recs[0].seqno <= s then Some(recs[0])
    else Newest(recs[1..], k, s)
  }

  datatype Answer = Found(value: Bytes) | NotFound

  /** What a user sees for the record that a read stops at. */
  ghost function Seen(r: Record): Answer {
    if r.kind.Value? then Found(r.value) else NotFound
  }

  /** A read of `k` at `s` that searches `upper` first and the deeper levels next. */
  ghost function Read(upper: seq<Record>, deeper: seq<Record>, k: Key, s: nat): Answer {
    match Newest(upper, k, s)
    case Some(r) => Seen(r)
    case None =>
      match Newest(deeper, k, s)
      case Some(r) => Seen(r)
      case None => NotFound
  }

  /** The records of user key `k`, in order. */
  ghost function VersionsOf(recs: seq<Record>, k: Key): seq<Record> {
    if recs == [] then []
    else if recs[0].key == k then [recs[0]] + VersionsOf(recs[1..], k)
    else VersionsOf(recs[1..], k)
  }

  /** All records are of key `k`, newest first. */
  ghost predicate History(g: seq<Record>, k: Key) {
    && (forall i | 0 <= i < |g| :: g[i].key == k)
    && (forall i, j | 0 <= i < j < |g| :: g[i].seqno > g[j].seqno)
  }

  lemma {:induction false} VersionsOfConcat(a: seq<Record>, b: seq<Record>, k: Key)
    ensures VersionsOf(a + b, k) == VersionsOf(a, k) + VersionsOf(b, k)
  {
    if a == [] {
      assert a + b == b;
    } else {
      assert (a + b)[1..] == a[1..] + b;
      VersionsOfConcat(a[1..], b, k);
    }
  }

  lemma {:induction false} VersionsOfAll(g: seq<Record>, k: Key)
    requires forall i | 0 <= i < |g| :: g[i].key == k
    ensures VersionsOf(g, k) == g
  {
    if g != [] {
      VersionsOfAll(g[1..], k);
    }
  }

  lemma {:induction false} VersionsOfNone(g: seq<Record>, k: Key)
    requires forall i | 0 <= i < |g| :: g[i].key != k
    ensures VersionsOf(g, k) == []
  {
    if g != [] {
      VersionsOfNone(g[1..], k);
    }
  }

  lemma {:induction false} VersionIndex(recs: seq<Record>, k: Key, v: nat) returns (i: nat)
    requires v < |VersionsOf(recs, k)|
    ensures i < |recs| && recs[i] == VersionsOf(recs, k)[v] && recs[i].key == k
  {
    if recs[0].key == k && v == 0 {
      i := 0;
    } else {
      var j := VersionIndex(recs[1..], k, if recs[0].key == k then v - 1 else v);
      i := j + 1;
    }
  }

  /** A read only looks at the versions of its own key. */
  lemma {:induction false} NewestOfVersions(recs: seq<Record>, k: Key, s: nat)
    ensures Newest(recs, k, s) == Newest(VersionsOf(recs, k), k, s)
  {
    if recs != [] {
      NewestOfVersions(recs[1..], k, s);
      if recs[0].key == k {
        var v := VersionsOf(recs, k);
        assert v[1..] == VersionsOf(recs[1..], k);
      }
    }
  }

  lemma ReadOfVersions(upper: seq<Record>, deeper: seq<Record>, k: Key, s: nat)
    ensures Read(upper, deeper, k, s) == Read(VersionsOf(upper, k), VersionsOf(deeper, k), k, s)
  {
    NewestOfVersions(upper, k, s);
    NewestOfVersions(deeper, k, s);
  }

  /** A sorted stream is smaller keys, then the history of `k`, then larger keys. */
  lemma KeyBlock(recs: seq<Record>, k: Key) returns (m: nat, n: nat)
    requires Sorted(recs)
    ensures m <= n <= |recs|
    ensures forall i | 0 <= i < m :: recs[i].key < k
    ensures forall i | m <= i < n :: recs[i].key == k
    ensures forall i | n <= i < |recs| :: recs[i].key > k
  {
    m := 0;
    while m < |recs| && recs[m].key < k
      invariant m <= |recs|
      invariant forall i | 0 <= i < m :: recs[i].key < k
    {
      m := m + 1;
    }
    n := m;
    while n < |recs| && recs[n].key == k
      invariant m <= n <= |recs|
      invariant forall i | m <= i < n :: recs[i].key == k
    {
      n := n + 1;
    }
    if n < |recs| {
      if m < n {
        assert Before(recs[m], recs[n]);
      }
      forall i | n < i < |recs| ensures recs[i].key > k {
        assert Before(recs[n], recs[i]);
      }
    }
  }

  lemma SplitAtKey(recs: seq<Record>, k: Key) returns (a: seq<Record>, g: seq<Record>, b: seq<Record>)
    requires Sorted(recs)
    ensures recs == a + g + b
    ensures forall i | 0 <= i < |a| :: a[i].key < k
    ensures History(g, k) && g == VersionsOf(recs, k)
    ensures forall i | 0 <= i < |b| :: b[i].key > k
  {
    hide VersionsOf;
    var m, n := KeyBlock(recs, k);
    BlockHistory(recs, m, n, k);
    hide Sorted, History;
    a, g, b := recs[..m], recs[m..n], recs[n..];
    assert recs == a + g + b;
    VersionsOfConcat(a + g, b, k);
    VersionsOfConcat(a, g, k);
    VersionsOfNone(a, k);
    VersionsOfAll(g, k);
    VersionsOfNone(b, k);
  }

  lemma BlockHistory(recs: seq<Record>, m: nat, n: nat, k: Key)
    requires Sorted(recs) && m <= n <= |recs| && forall i | m <= i < n :: recs[i].key == k
    ensures History(recs[m..n], k)
  {
    var g := recs[m..n];
    forall i, j | 0 <= i < j < |g| ensures g[i].seqno > g[j].seqno {
      assert Before(recs[m + i], recs[m + j]);
    }
  }
}
