/** The circular doubly linked list of an LRU cache shard, and sums of charges over sets of handles. */
module LruList {
  import opened LruTable

  /** The dummy head of the list. */
  const HEAD: Id := 0

  datatype Link = Link(next: Id, prev: Id)

  type Links = map<Id, Link>

  function NextIn(ring: seq<Id>, i: nat): Id
    requires i < |ring|
  {
    if i + 1 < |ring| then ring[i + 1] else ring[0]
  }

  function PrevIn(ring: seq<Id>, i: nat): Id
    requires i < |ring|
  {
    if i > 0 then ring[i - 1] else ring[|ring| - 1]
  }

  predicate LinkAt(links: Links, ring: seq<Id>, i: nat)
    requires i < |ring|
  {
    ring[i] in links && links[ring[i]] == Link(NextIn(ring, i), PrevIn(ring, i))
  }

  /** The links form a ring in this order, and nothing else is linked. */
  ghost predicate Ring(links: Links, ring: seq<Id>) {
    && ring != [] && ring[0] == HEAD && NoDup(ring)
    && (forall i: nat | i < |ring| :: LinkAt(links, ring, i))
    && (forall id | id in links :: id in ring)
  }

  lemma Distinct(ring: seq<Id>, i: nat, j: nat)
    requires NoDup(ring) && i < |ring| && j < |ring|
    ensures ring[i] == ring[j] <==> i == j
  {
  }

  lemma RingMember(links: Links, ring: seq<Id>, i: nat)
    requires Ring(links, ring) && i < |ring|
    ensures ring[i] in links && links[ring[i]] == Link(NextIn(ring, i), PrevIn(ring, i))
    ensures NextIn(ring, i) in links && PrevIn(ring, i) in links
  {
    assert LinkAt(links, ring, i);
    assert LinkAt(links, ring, if i + 1 < |ring| then i + 1 else 0);
    assert LinkAt(links, ring, if i > 0 then i - 1 else |ring| - 1);
  }

  /** Pointer updates that take `e` out. */
  function Unlinked(links: Links, e: Id): Links
    requires e in links && links[e].next in links && links[e].prev in links
  {
    var n, p := links[e].next, links[e].prev;
    var l := links[n := links[n].(prev := p)];
    l[p := l[p].(next := n)] - {e}
  }

  /** Pointer updates that put `e` after `p`. */
  function LinkedAfter(links: Links, p: Id, e: Id): Links
    requires p in links && links[p].next in links
  {
    var n := links[p].next;
    var l := links[e := Link(n, p)];
    var m := l[p := l[p].(next := e)];
    m[n := m[n].(prev := e)]
  }

  lemma UnlinkAt(links: Links, ring: seq<Id>, i: nat, k: nat)
    requires Ring(links, ring) && 0 < i < |ring| && k < |ring| && k != i
    requires ring[i] in links && links[ring[i]].next in links && links[ring[i]].prev in links
    ensures LinkAt(Unlinked(links, ring[i]), ring[..i] + ring[i + 1..], if k < i then k else k - 1)
  {
    hide Ring;
    RingNoDup(links, ring);
    RingMember(links, ring, i);
    RingMember(links, ring, k);
    Distinct(ring, i, k);
    Distinct(ring, k, i - 1);
    Distinct(ring, k, if i + 1 < |ring| then i + 1 else 0);
    hide NoDup;
  }

  lemma RingNoDup(links: Links, ring: seq<Id>)
    requires Ring(links, ring)
    ensures NoDup(ring) && ring != [] && ring[0] == HEAD
  {
  }

  lemma UnlinkRing(links: Links, ring: seq<Id>, i: nat)
    requires Ring(links, ring) && 0 < i < |ring|
    ensures ring[i] in links && links[ring[i]].next in links && links[ring[i]].prev in links
    ensures Ring(Unlinked(links, ring[i]), ring[..i] + ring[i + 1..])
  {
    RingMember(links, ring, i);
    var ring' := ring[..i] + ring[i + 1..];
    var links' := Unlinked(links, ring[i]);
    hide LinkAt;
    forall j: nat | j < |ring'| ensures LinkAt(links', ring', j) {
      UnlinkAt(links, ring, i, if j < i then j else j + 1);
    }
    forall id | id in links' ensures id in ring' {
      var k :| 0 <= k < |ring| && ring[k] == id;
      assert ring'[if k < i then k else k - 1] == id;
    }
  }

  lemma LinkAfterAt(links: Links, ring: seq<Id>, i: nat, e: Id, k: nat)
    requires Ring(links, ring) && i < |ring| && e !in links && k < |ring|
    requires ring[i] in links && links[ring[i]].next in links
    ensures LinkAt(LinkedAfter(links, ring[i], e), ring[..i + 1] + [e] + ring[i + 1..], if k <= i then k else k + 1)
  {
    hide Ring;
    RingNoDup(links, ring);
    RingMember(links, ring, i);
    RingMember(links, ring, k);
    Distinct(ring, k, i);
    Distinct(ring, k, if i + 1 < |ring| then i + 1 else 0);
    hide NoDup;
  }

  lemma NoDupInsert(s: seq<Id>, i: nat, e: Id)
    requires NoDup(s) && i <= |s| && forall j: nat | j < |s| :: s[j] != e
    ensures NoDup(s[..i] + [e] + s[i..])
  {
  }

  lemma NewLinkAt(links: Links, ring: seq<Id>, i: nat, e: Id)
    requires Ring(links, ring) && i < |ring| && e !in links
    requires ring[i] in links && links[ring[i]].next in links
    ensures LinkAt(LinkedAfter(links, ring[i], e), ring[..i + 1] + [e] + ring[i + 1..], i + 1)
  {
    hide Ring;
    RingMember(links, ring, i);
  }

  lemma LinkRing(links: Links, ring: seq<Id>, i: nat, e: Id)
    requires Ring(links, ring) && i < |ring| && e !in links
    ensures ring[i] in links && links[ring[i]].next in links
    ensures Ring(LinkedAfter(links, ring[i], e), ring[..i + 1] + [e] + ring[i + 1..])
  {
    RingMember(links, ring, i);
    var ring' := ring[..i + 1] + [e] + ring[i + 1..];
    var links' := LinkedAfter(links, ring[i], e);
    forall j: nat | j < |ring| ensures ring[j] != e {
      assert LinkAt(links, ring, j);
    }
    NewLinkAt(links, ring, i, e);
    NoDupInsert(ring, i + 1, e);
    hide LinkAt, NoDup;
    forall j: nat | j < |ring'| ensures LinkAt(links', ring', j) {
      if j != i + 1 {
        LinkAfterAt(links, ring, i, e, if j <= i then j else j - 1);
      }
    }
    forall id | id in links' ensures id in ring' {
      if id == e {
        assert ring'[i + 1] == e;
      } else {
        var k :| 0 <= k < |ring| && ring[k] == id;
        assert ring'[if k <= i then k else k + 1] == id;
      }
    }
  }

  // ---- Handles and their charges

  datatype Handle = Handle(key: HashedKey, charge: nat, refs: nat, inCache: bool, highPri: bool, inPool: bool)
  {
    /** In the table and held by nobody else: it may be evicted. */
    predicate Evictable() {
      inCache && refs == 1
    }

    /** References held outside of the cache. */
    function Held(): int {
      refs - (if inCache then 1 else 0)
    }
  }

  type Handles = map<Id, Handle>

  /** Total charge of the handles of `s` with ids below `n`. */
  ghost function Sum(mem: Handles, s: set<Id>, n: nat): nat {
    if n == 0 then 0
    else Sum(mem, s, n - 1) + (if n - 1 in mem && n - 1 in s then mem[n - 1].charge else 0)
  }

  lemma {:induction false} SumAdd(mem: Handles, s: set<Id>, n: nat, id: Id)
    requires id in mem && id < n && id !in s
    ensures Sum(mem, s + {id}, n) == Sum(mem, s, n) + mem[id].charge
    decreases n
  {
    if id == n - 1 {
      SumSame(mem, mem, s, s + {id}, n - 1);
    } else {
      SumAdd(mem, s, n - 1, id);
    }
  }

  /** The sum depends on the charges below `n` only. */
  lemma {:induction false} SumSame(mem: Handles, mem': Handles, s: set<Id>, s': set<Id>, n: nat)
    requires forall id: nat | id < n && id in mem && id in s ::
               id in mem' && id in s' && mem'[id].charge == mem[id].charge
    requires forall id: nat | id < n && id in mem' && id in s' :: id in mem && id in s
    ensures Sum(mem', s', n) == Sum(mem, s, n)
    decreases n
  {
    if n > 0 {
      SumSame(mem, mem', s, s', n - 1);
    }
  }

  lemma SumRemove(mem: Handles, s: set<Id>, n: nat, id: Id)
    requires id in mem && id < n && id in s
    ensures Sum(mem, s, n) == Sum(mem, s - {id}, n) + mem[id].charge
  {
    SumAdd(mem, s - {id}, n, id);
    assert s - {id} + {id} == s;
  }

  lemma {:induction false} SumEmpty(mem: Handles, n: nat)
    ensures Sum(mem, {}, n) == 0
  {
    if n > 0 {
      SumEmpty(mem, n - 1);
    }
  }

  /** A set splits its sum. */
  lemma {:induction false} SumSplit(mem: Handles, s: set<Id>, t: set<Id>, n: nat)
    requires s !! t
    ensures Sum(mem, s + t, n) == Sum(mem, s, n) + Sum(mem, t, n)
  {
    if n > 0 {
      SumSplit(mem, s, t, n - 1);
    }
  }
}
