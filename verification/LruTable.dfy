/** The hash table of an LRU cache shard: buckets of handles chained through `nextHash`, grown to keep
    chains short. It refines a finite map. */
module LruTable {
  import opened Options

  type Id = nat
  type Key = string

  /** Keys are compared together with their hash. */
  datatype HashedKey = HashedKey(hash: nat, key: Key)

  /** The fields of a handle that the table uses. */
  datatype Node = Node(key: HashedKey, nextHash: Option<Id>)

  /** Where a pointer to a handle is stored. */
  datatype Slot = Bucket(i: nat) | NextOf(id: Id)

  type Nodes = map<Id, Node>

  /** The bucket of a key in a table of `n` buckets. The source masks the hash with `n - 1`, `n` a power of two. */
  function Home(k: HashedKey, n: nat): (r: nat)
    requires n > 0
    ensures r < n
  {
    k.hash % n
  }

  // ---- Chains

  ghost predicate Linked(node: Nodes, p: Option<Id>, s: seq<Id>)
    decreases |s|
  {
    if s == [] then p == None
    else p == Some(s[0]) && s[0] in node && Linked(node, node[s[0]].nextHash, s[1..])
  }

  ghost predicate NoDup(s: seq<Id>) {
    forall i, j | 0 <= i < j < |s| :: s[i] != s[j]
  }

  /** A chain depends on its own nodes only. */
  lemma {:induction false} LinkedFrame(node: Nodes, node': Nodes, p: Option<Id>, s: seq<Id>)
    requires Linked(node, p, s)
    requires forall i | 0 <= i < |s| && s[i] in node :: s[i] in node' && node'[s[i]].nextHash == node[s[i]].nextHash
    ensures Linked(node', p, s)
    decreases |s|
  {
    if s != [] {
      assert forall i | 0 <= i < |s[1..]| :: s[1..][i] == s[i + 1];
      LinkedFrame(node, node', node[s[0]].nextHash, s[1..]);
    }
  }

  /** The pointer at position `k` of a chain. */
  ghost function PointerAt(node: Nodes, p: Option<Id>, s: seq<Id>, k: nat): Option<Id>
    requires Linked(node, p, s) && k <= |s|
    decreases k
  {
    if k == 0 then p else PointerAt(node, node[s[0]].nextHash, s[1..], k - 1)
  }

  lemma {:induction false} PointerIs(node: Nodes, p: Option<Id>, s: seq<Id>, k: nat)
    requires Linked(node, p, s) && k <= |s|
    ensures PointerAt(node, p, s, k) == if k < |s| then Some(s[k]) else None
    ensures k == 0 ==> PointerAt(node, p, s, k) == p
    ensures k > 0 ==> s[k - 1] in node && node[s[k - 1]].nextHash == PointerAt(node, p, s, k)
    ensures Linked(node, PointerAt(node, p, s, k), s[k..])
    decreases k
  {
    if k > 0 {
      PointerIs(node, node[s[0]].nextHash, s[1..], k - 1);
      assert s[1..][k - 1..] == s[k..];
      if k > 1 {
        assert s[1..][k - 2] == s[k - 1];
      }
      if k < |s| {
        assert s[1..][k - 1] == s[k];
      }
    } else {
      assert s[0..] == s;
    }
  }

  /** Sets the pointer stored in a slot. */
  function SetNext(node: Nodes, id: Id, p: Option<Id>): Nodes
    requires id in node
  {
    node[id := node[id].(nextHash := p)]
  }

  /** Redirecting the pointer after position `k` replaces the rest of the chain. */
  lemma {:induction false} Redirect(node: Nodes, p: Option<Id>, s: seq<Id>, k: nat, q: Option<Id>, t: seq<Id>)
    requires Linked(node, p, s) && NoDup(s) && 0 < k <= |s|
    requires Linked(node, q, t) && s[k - 1] !in t
    ensures s[k - 1] in node && Linked(SetNext(node, s[k - 1], q), p, s[..k] + t)
    decreases k
  {
    PointerIs(node, p, s, k);
    var node' := SetNext(node, s[k - 1], q);
    if k == 1 {
      LinkedFrame(node, node', q, t);
      assert (s[..1] + t)[1..] == t;
    } else {
      var rest := s[1..];
      assert rest[k - 2] == s[k - 1];
      Redirect(node, node[s[0]].nextHash, rest, k - 1, q, t);
      assert s[0] != s[k - 1];
      assert (s[..k] + t)[1..] == rest[..k - 1] + t;
    }
  }

  // ---- The table

  /** One bucket: a chain without repetition, of the handles that hash to it. */
  ghost predicate BucketOk(node: Nodes, p: Option<Id>, chain: seq<Id>, b: nat, length: nat)
    requires length > 0
  {
    && Linked(node, p, chain) && NoDup(chain)
    && forall i | 0 <= i < |chain| :: chain[i] in node && Home(node[chain[i]].key, length) == b
  }

  ghost predicate BucketsOk(node: Nodes, list: seq<Option<Id>>, chains: seq<seq<Id>>) {
    && |chains| == |list| > 0
    && (forall b | 0 <= b < |list| :: BucketOk(node, list[b], chains[b], b, |list|))
    && (forall id | id in node :: id in chains[Home(node[id].key, |list|)])
  }

  ghost predicate KeysDiffer(node: Nodes) {
    forall a, b | a in node && b in node && node[a].key == node[b].key :: a == b
  }

  /** The map that the table stands for. */
  ghost function Contents(node: Nodes): map<HashedKey, Id>
    requires KeysDiffer(node)
  {
    map id | id in node :: node[id].key := id
  }

  ghost predicate PowerOfTwo(n: nat) {
    n > 0 && (n == 1 || (n % 2 == 0 && PowerOfTwo(n / 2)))
  }

  lemma ContentsIs(node: Nodes, id: Id)
    requires KeysDiffer(node) && id in node
    ensures node[id].key in Contents(node) && Contents(node)[node[id].key] == id
  {
  }

  lemma ContentsHas(node: Nodes, k: HashedKey)
    requires KeysDiffer(node) && k in Contents(node)
    ensures Contents(node)[k] in node && node[Contents(node)[k]].key == k
  {
  }

  /** `m` is the map from the keys of the nodes to the nodes. */
  ghost predicate IsContents(node: Nodes, m: map<HashedKey, Id>) {
    && (forall id | id in node :: node[id].key in m && m[node[id].key] == id)
    && (forall k | k in m :: m[k] in node && node[m[k]].key == k)
  }

  lemma ContentsUnique(node: Nodes, m: map<HashedKey, Id>)
    requires IsContents(node, m)
    ensures KeysDiffer(node) && Contents(node) == m
  {
    forall a, b | a in node && b in node && node[a].key == node[b].key ensures a == b {
      assert m[node[a].key] == a;
    }
    forall k | k in m ensures k in Contents(node) && Contents(node)[k] == m[k] {
      ContentsIs(node, m[k]);
    }
    forall k | k in Contents(node) ensures k in m {
      ContentsHas(node, k);
    }
  }

  lemma ContentsIsContents(node: Nodes)
    requires KeysDiffer(node)
    ensures IsContents(node, Contents(node))
  {
    forall id | id in node ensures node[id].key in Contents(node) && Contents(node)[node[id].key] == id {
      ContentsIs(node, id);
    }
    forall k | k in Contents(node) ensures Contents(node)[k] in node && node[Contents(node)[k]].key == k {
      ContentsHas(node, k);
    }
  }

  /** Changes of links only leave the map as it is. */
  lemma SameContents(node: Nodes, node': Nodes)
    requires KeysDiffer(node) && node'.Keys == node.Keys && forall id | id in node :: node'[id].key == node[id].key
    ensures KeysDiffer(node') && Contents(node') == Contents(node)
  {
    ContentsIsContents(node);
    hide Contents;
    assert forall id :: id in node' <==> id in node'.Keys;
    ContentsUnique(node', Contents(node));
  }

  // ---- Changing one chain

  /** The nodes after the pointer at position `k` of a chain is set to `q` and the handles in `gone` are let go. */
  function Spliced(node: Nodes, chain: seq<Id>, k: nat, q: Option<Id>, gone: set<Id>): Nodes
    requires k <= |chain| && (k > 0 ==> chain[k - 1] in node)
  {
    (if k == 0 then node else SetNext(node, chain[k - 1], q)) - gone
  }

  lemma JoinedNoDup(chain: seq<Id>, k: nat, t: seq<Id>)
    requires NoDup(chain) && NoDup(t) && k <= |chain| && forall i, j | 0 <= i < k && 0 <= j < |t| :: chain[i] != t[j]
    ensures NoDup(chain[..k] + t)
    ensures k > 0 ==> chain[k - 1] !in t
  {
  }

  lemma JoinedAvoids(chain: seq<Id>, k: nat, t: seq<Id>, gone: set<Id>)
    requires k <= |chain| && (forall i | 0 <= i < k :: chain[i] !in gone) && forall j | 0 <= j < |t| :: t[j] !in gone
    ensures forall i | 0 <= i < |chain[..k] + t| :: (chain[..k] + t)[i] !in gone
  {
  }

  lemma SpliceChain(node: Nodes, p: Option<Id>, chain: seq<Id>, k: nat, q: Option<Id>, t: seq<Id>, gone: set<Id>)
    requires Linked(node, p, chain) && NoDup(chain) && k <= |chain| && (k > 0 ==> chain[k - 1] in node)
    requires Linked(node, q, t) && NoDup(t) && forall i, j | 0 <= i < k && 0 <= j < |t| :: chain[i] != t[j]
    requires forall i | 0 <= i < k :: chain[i] !in gone
    requires forall j | 0 <= j < |t| :: t[j] !in gone
    ensures Linked(Spliced(node, chain, k, q, gone), if k == 0 then q else p, chain[..k] + t)
    ensures NoDup(chain[..k] + t)
  {
    hide Linked;
    JoinedNoDup(chain, k, t);
    hide NoDup;
    var node' := Spliced(node, chain, k, q, gone);
    if k == 0 {
      assert chain[..0] + t == t;
      LinkedFrame(node, node', q, t);
    } else {
      Redirect(node, p, chain, k, q, t);
      JoinedAvoids(chain, k, t, gone);
      LinkedFrame(SetNext(node, chain[k - 1], q), node', p, chain[..k] + t);
    }
  }

  /** A change of the chain of bucket `b`: from position `k` on it becomes `t`, and the handles in `gone` leave.
      `node` is the old nodes `node0`, perhaps with a new one for this bucket. */
  ghost predicate CanSplice(node: Nodes, node0: Nodes, n: nat, chain: seq<Id>, b: nat, k: nat, q: Option<Id>,
          t: seq<Id>, gone: set<Id>)
    requires n > 0
  {
    && k <= |chain| && (k > 0 ==> chain[k - 1] in node)
    && (forall id | id in node0 :: id in node && node[id] == node0[id])
    && (forall id | id in node && (id !in node0 || id in gone) :: Home(node[id].key, n) == b)
    && Linked(node, q, t) && NoDup(t) && (forall i, j | 0 <= i < k && 0 <= j < |t| :: chain[i] != t[j])
    && (forall i | 0 <= i < k :: chain[i] !in gone)
    && (forall j | 0 <= j < |t| :: t[j] !in gone && t[j] in node && Home(node[t[j]].key, n) == b)
    && (forall id | id in node && id !in gone && Home(node[id].key, n) == b :: id in chain[..k] || id in t)
  }

  lemma SpliceOwn(node: Nodes, node0: Nodes, n: nat, p: Option<Id>, chain: seq<Id>, b: nat, k: nat, q: Option<Id>,
          t: seq<Id>, gone: set<Id>)
    requires n > 0 && BucketOk(node0, p, chain, b, n) && CanSplice(node, node0, n, chain, b, k, q, t, gone)
    ensures BucketOk(Spliced(node, chain, k, q, gone), if k == 0 then q else p, chain[..k] + t, b, n)
  {
    hide Linked, NoDup, Home;
    LinkedFrame(node0, node, p, chain);
    SpliceChain(node, p, chain, k, q, t, gone);
  }

  lemma SpliceOther(node: Nodes, node0: Nodes, n: nat, p: Option<Id>, other: seq<Id>, c: nat, chain: seq<Id>, b: nat,
          k: nat, q: Option<Id>, t: seq<Id>, gone: set<Id>)
    requires n > 0 && BucketOk(node0, p, other, c, n) && CanSplice(node, node0, n, chain, b, k, q, t, gone) && c != b
    requires k > 0 ==> chain[k - 1] in node0 && Home(node0[chain[k - 1]].key, n) == b
    ensures BucketOk(Spliced(node, chain, k, q, gone), p, other, c, n)
  {
    hide Linked, NoDup, Home;
    LinkedFrame(node0, Spliced(node, chain, k, q, gone), p, other);
  }

  /** Changing the chain of bucket `b` leaves a well-formed table. */
  lemma SpliceBuckets(node: Nodes, node0: Nodes, list: seq<Option<Id>>, chains: seq<seq<Id>>, b: nat, k: nat,
          q: Option<Id>, t: seq<Id>, gone: set<Id>)
    requires BucketsOk(node0, list, chains) && b < |list| && CanSplice(node, node0, |list|, chains[b], b, k, q, t, gone)
    ensures BucketsOk(Spliced(node, chains[b], k, q, gone), if k == 0 then list[b := q] else list,
                      chains[b := chains[b][..k] + t])
  {
    hide Linked, NoDup, Home;
    var chain, n := chains[b], |list|;
    assert BucketOk(node0, list[b], chain, b, n);
    var node' := Spliced(node, chain, k, q, gone);
    SpliceOwn(node, node0, n, list[b], chain, b, k, q, t, gone);
    forall c | 0 <= c < n && c != b ensures BucketOk(node', list[c], chains[c], c, n) {
      SpliceOther(node, node0, n, list[c], chains[c], c, chain, b, k, q, t, gone);
    }
    SpliceMembers(node, node0, n, chains, b, k, q, t, gone);
    hide BucketOk, CanSplice;
  }

  lemma SpliceMembers(node: Nodes, node0: Nodes, n: nat, chains: seq<seq<Id>>, b: nat, k: nat, q: Option<Id>,
          t: seq<Id>, gone: set<Id>)
    requires 0 < n == |chains| && b < n && CanSplice(node, node0, n, chains[b], b, k, q, t, gone)
    requires forall id | id in node0 :: id in chains[Home(node0[id].key, n)]
    ensures var node' := Spliced(node, chains[b], k, q, gone);
            forall id | id in node' :: id in chains[b := chains[b][..k] + t][Home(node'[id].key, n)]
  {
    hide Linked, NoDup, Home;
    var node' := Spliced(node, chains[b], k, q, gone);
    forall id | id in node' ensures id in chains[b := chains[b][..k] + t][Home(node'[id].key, n)] {
      assert node'[id].key == node[id].key;
      if Home(node[id].key, n) == b {
        assert id in chains[b][..k] || id in t;
      } else {
        assert id in node0;
      }
    }
  }

  class HandleTable {
    var list: seq<Option<Id>>
    var elems: nat
    var node: Nodes
    ghost var chains: seq<seq<Id>>

    ghost predicate Valid()
      reads this
    {
      && BucketsOk(node, list, chains)
      && KeysDiffer(node)
      && elems == |node| <= |list|
      && PowerOfTwo(|list|) && |list| >= 16
    }

    /** Sixteen empty buckets. */
    constructor ()
      ensures Valid() && Map() == map[] && node == map[]
    {
      list, chains := seq(16, _ => None), seq(16, _ => []);
      elems, node := 0, map[];
      new;
      assert PowerOfTwo(2) && PowerOfTwo(4) && PowerOfTwo(8);
    }

    ghost function Map(): map<HashedKey, Id>
      reads this
      requires Valid()
    {
      Contents(node)
    }

    function Load(slot: Slot): Option<Id>
      reads this
      requires if slot.Bucket? then slot.i < |list| else slot.id in node
    {
      if slot.Bucket? then list[slot.i] else node[slot.id].nextHash
    }

    /** The slot that points to the handle with this key, or the last slot of its bucket's chain; `k` is its
        position. */
    method FindPointer(key: HashedKey) returns (slot: Slot, ghost k: nat)
      requires Valid()
      ensures |list| > 0 && |chains| == |list|
      ensures var b := Home(key, |list|); var chain := chains[b];
              && k <= |chain| && slot == (if k == 0 then Bucket(b) else NextOf(chain[k - 1]))
              && (k > 0 ==> chain[k - 1] in node)
              && FoundAt(node, chain, key, k, Load(slot))
              && (Load(slot).Some? ==> Load(slot).value in node)
    {
      hide Linked, PointerAt, NoDup, Home, PowerOfTwo, KeysDiffer;
      var b := Home(key, |list|);
      ghost var chain := chains[b];
      assert BucketOk(node, list[b], chain, b, |list|);
      slot, k := Bucket(b), 0;
      PointerIs(node, list[b], chain, 0);
      while Load(slot).Some? && node[Load(slot).value].key != key
        invariant k <= |chain| && slot == (if k == 0 then Bucket(b) else NextOf(chain[k - 1]))
        invariant k > 0 ==> chain[k - 1] in node
        invariant Load(slot) == PointerAt(node, list[b], chain, k) == if k < |chain| then Some(chain[k]) else None
        invariant Linked(node, Load(slot), chain[k..])
        invariant k < |chain| ==> chain[k] in node
        invariant forall i | 0 <= i < k :: chain[i] in node && node[chain[i]].key != key
        decreases |chain| - k
      {
        PointerIs(node, list[b], chain, k + 1);
        slot := NextOf(Load(slot).value);
        k := k + 1;
      }
      if k == |chain| {
        forall id | id in node ensures node[id].key != key {
          assert id in chains[Home(node[id].key, |list|)];
        }
      }
    }

    method Lookup(key: HashedKey) returns (r: Option<Id>)
      requires Valid()
      ensures r == if key in Map() then Some(Map()[key]) else None
    {
      hide Linked;
      var slot, k := FindPointer(key);
      r := Load(slot);
      if r.Some? {
        ContentsIs(node, r.value);
      }
    }

    /** Adds a handle; the handle that had its key before leaves the table. */
    method Insert(h: Id, key: HashedKey) returns (old_: Option<Id>)
      requires Valid() && h !in node
      modifies this
      ensures Valid() && Map() == old(Map())[key := h]
      ensures node.Keys == old(node).Keys - (if old_.Some? then {old_.value} else {}) + {h}
      ensures old_ == if key in old(Map()) then Some(old(Map())[key]) else None
    {
      hide BucketsOk, Contents, PowerOfTwo, KeysDiffer;
      old_ := Put(h, key);
      if old_.None? {
        elems := elems + 1;
        if elems > |list| {
          Resize();
        }
      }
    }

    /** Stores the pointer to the new handle where the search for its key ends. */
    method Put(h: Id, key: HashedKey) returns (old_: Option<Id>)
      requires Valid() && h !in node
      modifies `node, `list, `chains
      ensures BucketsOk(node, list, chains) && KeysDiffer(node) && Contents(node) == Contents(old(node))[key := h]
      ensures |list| == |old(list)|
      ensures node.Keys == old(node).Keys - (if old_.Some? then {old_.value} else {}) + {h}
      ensures |node| == |old(node)| + (if old_.Some? then 0 else 1)
      ensures old_ == if key in Contents(old(node)) then Some(Contents(old(node))[key]) else None
    {
      hide Home, BucketsOk, Contents, PowerOfTwo, KeysDiffer, FoundAt;
      var slot, k := FindPointer(key);
      old_ := Load(slot);
      ghost var b, gone := Home(key, |list|), AsSet(old_);
      PutTable(node, list, chains, h, key, k, old_);
      PutMap(node, chains[b], h, key, k, old_);
      node := node[h := Node(key, NextOfFound(node, old_))];
      ghost var node1 := node;
      if slot.Bucket? {
        list := list[slot.i := Some(h)];
      } else {
        node := SetNext(node, slot.id, Some(h));
      }
      node := node - AsSet(old_);
      chains := chains[b := chains[b][..k] + ([h] + Rest(chains[b], k))];
    }

    /** Takes a handle out of the table. */
    method Remove(key: HashedKey) returns (result: Option<Id>)
      requires Valid()
      modifies this
      ensures Valid() && Map() == old(Map()) - {key}
      ensures result == if key in old(Map()) then Some(old(Map())[key]) else None
      ensures node.Keys == old(node).Keys - (if result.Some? then {result.value} else {})
    {
      hide Linked, NoDup, Home, BucketsOk, Contents, PowerOfTwo, CanSplice;
      var slot, k := FindPointer(key);
      result := Load(slot);
      DropContents(node, key, result);
      if result.Some? {
        var next := node[result.value].nextHash;
        DropTable(node, list, chains, key, k);
        ghost var b := Home(key, |list|);
        if slot.Bucket? {
          list := list[slot.i := next];
        } else {
          node := SetNext(node, slot.id, next);
        }
        node := node - {result.value};
        chains := chains[b := chains[b][..k] + Rest(chains[b], k)];
        elems := elems - 1;
      }
    }

    /** Moves every handle to a new array of buckets, at least one and a half times as long as there are handles. */
    method Resize()
      requires BucketsOk(node, list, chains) && KeysDiffer(node) && elems == |node|
      modifies `node, `list, `chains
      ensures Valid() && node.Keys == old(node).Keys && Contents(node) == Contents(old(node))
      ensures 2 * |list| >= 3 * elems
    {
      hide BucketsOk, KeysDiffer, Contents, PowerOfTwo, Moving;
      var m := NewLength(elems);
      var newList := seq(m, _ => None);
      ghost var newChains: seq<seq<Id>> := seq(m, _ => []);
      ghost var node0 := node;
      ChainCount(node, list, chains);
      MoveStart(node, list, chains, newList, newChains);
      var count := 0;
      for i := 0 to |list|
        invariant elems == |node0| && list == old(list) && chains == old(chains) && |chains| == |list|
        invariant Moving(node0, node, list, chains, newList, newChains, i, 0)
        invariant |newList| == m && count == MovedBefore(chains, i)
      {
        var h := list[i];
        ghost var k := 0;
        MoveHead(node0, node, list, chains, newList, newChains, i);
        while h.Some?
          invariant elems == |node0| && list == old(list) && chains == old(chains) && |chains| == |list|
          invariant k <= |chains[i]| && Moving(node0, node, list, chains, newList, newChains, i, k)
          invariant h == (if k < |chains[i]| then Some(chains[i][k]) else None)
          invariant |newList| == m && count == MovedBefore(chains, i) + k
          decreases |chains[i]| - k
        {
          MoveOne(node0, node, list, chains, newList, newChains, i, k);
          var next := node[h.value].nextHash;
          var c := Home(node[h.value].key, m);
          node := SetNext(node, h.value, newList[c]);
          newList := newList[c := h];
          newChains := newChains[c := [h.value] + newChains[c]];
          h := next;
          k := k + 1;
          count := count + 1;
        }
        MoveNext(node0, node, list, chains, newList, newChains, i);
      }
      MoveEnd(node0, node, list, chains, newList, newChains);
      CountAll(node0, list, chains);
      assert elems == count;
      list, chains := newList, newChains;
    }
  }

  /** The least power of two, from 16 on, that is at least one and a half times `elems`. */
  method NewLength(elems: nat) returns (m: nat)
    ensures PowerOfTwo(m) && m >= 16 && 2 * m >= 3 * elems && (m > 16 ==> m < 3 * elems)
  {
    m := 16;
    assert PowerOfTwo(2) && PowerOfTwo(4) && PowerOfTwo(8);
    while 2 * m < 3 * elems
      invariant PowerOfTwo(m) && m >= 16 && (m > 16 ==> m < 3 * elems)
      decreases 3 * elems - m
    {
      m := m * 2;
      assert m / 2 * 2 == m;
    }
  }

  // ---- Moving handles to new buckets

  /** Handles of buckets before `i`, and the first `k` of bucket `i`, have been moved. */
  ghost predicate Done(node0: Nodes, chains: seq<seq<Id>>, id: Id, i: nat, k: nat)
    requires id in node0 && |chains| > 0
  {
    var b := Home(node0[id].key, |chains|);
    b < i || (b == i && k <= |chains[b]| && id in chains[b][..k])
  }

  ghost predicate NewBucketOk(node0: Nodes, node: Nodes, chains: seq<seq<Id>>, p: Option<Id>, chain: seq<Id>, c: nat,
          m: nat, i: nat, k: nat)
    requires m > 0 && |chains| > 0
  {
    && Linked(node, p, chain) && NoDup(chain)
    && forall j | 0 <= j < |chain| ::
         chain[j] in node0 && Home(node0[chain[j]].key, m) == c && Done(node0, chains, chain[j], i, k)
  }

  ghost predicate Moving(node0: Nodes, node: Nodes, list: seq<Option<Id>>, chains: seq<seq<Id>>,
                         newList: seq<Option<Id>>, newChains: seq<seq<Id>>, i: nat, k: nat)
  {
    && BucketsOk(node0, list, chains) && |newChains| == |newList| > 0
    && node.Keys == node0.Keys && (forall id | id in node0 :: node[id].key == node0[id].key)
    && (forall b | i < b < |list| :: Linked(node, list[b], chains[b]))
    && (i < |list| ==> k <= |chains[i]|)
    && (i < |list| ==> Linked(node, if k < |chains[i]| then Some(chains[i][k]) else None, chains[i][k..]))
    && (i < |list| && k == 0 ==> Linked(node, list[i], chains[i]))
    && (forall c | 0 <= c < |newList| :: NewBucketOk(node0, node, chains, newList[c], newChains[c], c, |newList|, i, k))
    && (forall id | id in node0 && Done(node0, chains, id, i, k) :: id in newChains[Home(node0[id].key, |newList|)])
  }

  lemma MoveStart(node: Nodes, list: seq<Option<Id>>, chains: seq<seq<Id>>, newList: seq<Option<Id>>,
          newChains: seq<seq<Id>>)
    requires BucketsOk(node, list, chains) && |newChains| == |newList| > 0
    requires forall c | 0 <= c < |newList| :: newList[c] == None && newChains[c] == []
    ensures Moving(node, node, list, chains, newList, newChains, 0, 0)
  {
    hide Home;
    forall b | 0 <= b < |list| ensures Linked(node, list[b], chains[b]) {
      assert BucketOk(node, list[b], chains[b], b, |list|);
    }
    assert Linked(node, list[0], chains[0]);
    assert chains[0][0..] == chains[0];
  }

  lemma MoveHead(node0: Nodes, node: Nodes, list: seq<Option<Id>>, chains: seq<seq<Id>>,
                 newList: seq<Option<Id>>, newChains: seq<seq<Id>>, i: nat)
    requires Moving(node0, node, list, chains, newList, newChains, i, 0) && i < |list|
    ensures |chains| == |list| && list[i] == if chains[i] == [] then None else Some(chains[i][0])
  {
  }

  lemma DoneNext(node0: Nodes, list: seq<Option<Id>>, chains: seq<seq<Id>>, i: nat, k: nat)
    requires BucketsOk(node0, list, chains) && i < |list| && k < |chains[i]|
    ensures chains[i][k] in node0 && Home(node0[chains[i][k]].key, |list|) == i
    ensures !Done(node0, chains, chains[i][k], i, k)
    ensures forall id | id in node0 ::
              Done(node0, chains, id, i, k + 1) <==> Done(node0, chains, id, i, k) || id == chains[i][k]
  {
    hide Linked, Home;
    var chain := chains[i];
    assert BucketOk(node0, list[i], chain, i, |list|);
    forall id | id in node0
      ensures Done(node0, chains, id, i, k + 1) <==> Done(node0, chains, id, i, k) || id == chain[k]
    {
      assert chain[..k + 1] == chain[..k] + [chain[k]];
    }
  }

  /** The chains not moved yet. */
  lemma MoveRest(node0: Nodes, node: Nodes, list: seq<Option<Id>>, chains: seq<seq<Id>>, i: nat, k: nat, p: Option<Id>)
    requires BucketsOk(node0, list, chains) && i < |list| && k < |chains[i]| && node.Keys == node0.Keys
    requires forall b | i < b < |list| :: Linked(node, list[b], chains[b])
    requires Linked(node, Some(chains[i][k]), chains[i][k..])
    ensures var h := chains[i][k];
            && h in node && node[h].nextHash == (if k + 1 < |chains[i]| then Some(chains[i][k + 1]) else None)
            && Linked(SetNext(node, h, p), node[h].nextHash, chains[i][k + 1..])
            && forall b | i < b < |list| :: Linked(SetNext(node, h, p), list[b], chains[b])
  {
    hide Home;
    var chain, h := chains[i], chains[i][k];
    assert BucketOk(node0, list[i], chain, i, |list|);
    assert chain[k..][1..] == chain[k + 1..];
    assert Linked(node, node[h].nextHash, chain[k + 1..]);
    hide Linked;
    var tail := chain[k + 1..];
    assert forall j | 0 <= j < |tail| :: tail[j] == chain[k + 1 + j] != h;
    LinkedFrame(node, SetNext(node, h, p), node[h].nextHash, chain[k + 1..]);
    LinkedFirst(node, node[h].nextHash, chain[k + 1..]);
    forall b | i < b < |list| ensures Linked(SetNext(node, h, p), list[b], chains[b]) {
      assert BucketOk(node0, list[b], chains[b], b, |list|);
      LinkedFrame(node, SetNext(node, h, p), list[b], chains[b]);
    }
  }

  lemma LinkedFirst(node: Nodes, p: Option<Id>, s: seq<Id>)
    requires Linked(node, p, s)
    ensures p == if s == [] then None else Some(s[0])
  {
  }

  /** The new buckets after handle `h` moves to the front of its new chain. */
  lemma MoveFront(node0: Nodes, node: Nodes, chains: seq<seq<Id>>, newList: seq<Option<Id>>, newChains: seq<seq<Id>>,
          h: Id, i: nat, k: nat)
    requires |chains| > 0 && |newChains| == |newList| > 0 && node.Keys == node0.Keys && h in node0
    requires forall c | 0 <= c < |newList| ::
               NewBucketOk(node0, node, chains, newList[c], newChains[c], c, |newList|, i, k)
    requires forall id | id in node0 && Done(node0, chains, id, i, k) :: id in newChains[Home(node0[id].key, |newList|)]
    requires !Done(node0, chains, h, i, k)
    requires forall id | id in node0 :: Done(node0, chains, id, i, k + 1) <==> Done(node0, chains, id, i, k) || id == h
    ensures var c, m := Home(node0[h].key, |newList|), |newList|;
            var node', newList', newChains' := SetNext(node, h, newList[c]), newList[c := Some(h)],
              newChains[c := [h] + newChains[c]];
            && (forall d | 0 <= d < m :: NewBucketOk(node0, node', chains, newList'[d], newChains'[d], d, m, i, k + 1))
            && (forall id | id in node0 && Done(node0, chains, id, i, k + 1) ::
                  id in newChains'[Home(node0[id].key, m)])
  {
    hide Linked, Home, Done;
    var c, m := Home(node0[h].key, |newList|), |newList|;
    var node', newList', newChains' := SetNext(node, h, newList[c]), newList[c := Some(h)],
      newChains[c := [h] + newChains[c]];
    forall d | 0 <= d < m ensures NewBucketOk(node0, node', chains, newList'[d], newChains'[d], d, m, i, k + 1) {
      assert NewBucketOk(node0, node, chains, newList[d], newChains[d], d, m, i, k);
      LinkedFrame(node, node', newList[d], newChains[d]);
      if d == c {
        LinkedPush(node', h, newChains[c]);
        assert forall j | 0 < j < |newChains'[c]| :: newChains'[c][j] == newChains[c][j - 1];
      }
    }
  }

  lemma LinkedPush(node: Nodes, h: Id, s: seq<Id>)
    requires h in node && Linked(node, node[h].nextHash, s)
    ensures Linked(node, Some(h), [h] + s)
  {
    assert ([h] + s)[1..] == s;
  }

  lemma MoveOne(node0: Nodes, node: Nodes, list: seq<Option<Id>>, chains: seq<seq<Id>>,
                newList: seq<Option<Id>>, newChains: seq<seq<Id>>, i: nat, k: nat)
    requires Moving(node0, node, list, chains, newList, newChains, i, k) && i < |list| && k < |chains[i]|
    ensures |newChains| == |newList| > 0
    ensures var h := chains[i][k];
            && h in node && node[h].nextHash == (if k + 1 < |chains[i]| then Some(chains[i][k + 1]) else None)
            && var c := Home(node[h].key, |newList|);
            Moving(node0, SetNext(node, h, newList[c]), list, chains, newList[c := Some(h)],
              newChains[c := [h] + newChains[c]], i, k + 1)
  {
    hide Linked, Home, Done, NewBucketOk, BucketsOk;
    ChainCount(node0, list, chains);
    var h := chains[i][k];
    DoneNext(node0, list, chains, i, k);
    var c := Home(node[h].key, |newList|);
    MoveRest(node0, node, list, chains, i, k, newList[c]);
    MoveFront(node0, node, chains, newList, newChains, h, i, k);
  }

  lemma MoveNext(node0: Nodes, node: Nodes, list: seq<Option<Id>>, chains: seq<seq<Id>>, newList: seq<Option<Id>>,
          newChains: seq<seq<Id>>, i: nat)
    requires i < |list| == |chains| && Moving(node0, node, list, chains, newList, newChains, i, |chains[i]|)
    ensures Moving(node0, node, list, chains, newList, newChains, i + 1, 0)
  {
    hide Linked, Home;
    forall id | id in node0 ensures Done(node0, chains, id, i, |chains[i]|) <==> Done(node0, chains, id, i + 1, 0) {
      assert chains[i][..|chains[i]|] == chains[i];
      assert id in chains[Home(node0[id].key, |list|)];
    }
    hide Done;
    forall c | 0 <= c < |newList|
      ensures NewBucketOk(node0, node, chains, newList[c], newChains[c], c, |newList|, i + 1, 0)
    {
      assert NewBucketOk(node0, node, chains, newList[c], newChains[c], c, |newList|, i, |chains[i]|);
    }
    if i + 1 < |list| {
      LinkedFirst(node, list[i + 1], chains[i + 1]);
      assert chains[i + 1][0..] == chains[i + 1];
    }
  }

  // ---- Counting

  ghost function MovedBefore(chains: seq<seq<Id>>, i: nat): nat
    requires i <= |chains|
  {
    if i == 0 then 0 else MovedBefore(chains, i - 1) + |chains[i - 1]|
  }

  /** The handles of the first `i` buckets. */
  ghost function InBuckets(node: Nodes, n: nat, i: nat): set<Id>
    requires n > 0
  {
    set id | id in node && Home(node[id].key, n) < i
  }

  lemma CountBuckets(node: Nodes, list: seq<Option<Id>>, chains: seq<seq<Id>>, i: nat)
    requires BucketsOk(node, list, chains) && i <= |list|
    ensures |InBuckets(node, |list|, i)| == MovedBefore(chains, i)
  {
    hide Linked, Home;
    if i == 0 {
      assert InBuckets(node, |list|, 0) == {};
    } else {
      CountBuckets(node, list, chains, i - 1);
      var chain := chains[i - 1];
      assert BucketOk(node, list[i - 1], chain, i - 1, |list|);
      CountChain(chain);
      BucketMembers(node, |list|, chain, i - 1, chains);
    }
  }

  lemma BucketMembers(node: Nodes, n: nat, chain: seq<Id>, b: nat, chains: seq<seq<Id>>)
    requires |chains| == n && b < n && chain == chains[b]
    requires forall id | id in node :: id in chains[Home(node[id].key, n)]
    requires forall i | 0 <= i < |chain| :: chain[i] in node && Home(node[chain[i]].key, n) == b
    ensures |InBuckets(node, n, b + 1)| == |InBuckets(node, n, b)| + |Members(chain)|
  {
    hide Home;
    assert InBuckets(node, n, b + 1) == InBuckets(node, n, b) + Members(chain);
    assert InBuckets(node, n, b) !! Members(chain);
  }

  ghost function Members(chain: seq<Id>): set<Id> {
    set id | id in chain
  }

  lemma {:induction false} CountChain(chain: seq<Id>)
    requires NoDup(chain)
    ensures |Members(chain)| == |chain|
    decreases |chain|
  {
    if chain == [] {
      assert Members(chain) == {};
    } else {
      var last, rest := chain[|chain| - 1], chain[..|chain| - 1];
      CountChain(rest);
      assert chain == rest + [last];
      assert Members(chain) == Members(rest) + {last};
    }
  }

  lemma CountAll(node: Nodes, list: seq<Option<Id>>, chains: seq<seq<Id>>)
    requires BucketsOk(node, list, chains)
    ensures |chains| == |list| && MovedBefore(chains, |list|) == |node|
  {
    CountBuckets(node, list, chains, |list|);
    assert InBuckets(node, |list|, |list|) == node.Keys;
  }

  lemma MoveEnd(node0: Nodes, node: Nodes, list: seq<Option<Id>>, chains: seq<seq<Id>>, newList: seq<Option<Id>>,
          newChains: seq<seq<Id>>)
    requires Moving(node0, node, list, chains, newList, newChains, |list|, 0) && KeysDiffer(node0)
    ensures BucketsOk(node, newList, newChains) && KeysDiffer(node) && Contents(node) == Contents(node0)
    ensures node.Keys == node0.Keys && |node| == |node0|
  {
    hide Linked, NoDup, Home;
    forall c | 0 <= c < |newList| ensures BucketOk(node, newList[c], newChains[c], c, |newList|) {
      assert NewBucketOk(node0, node, chains, newList[c], newChains[c], c, |newList|, |list|, 0);
    }
    forall id | id in node ensures id in newChains[Home(node[id].key, |newList|)] {
      assert id in node0 && Done(node0, chains, id, |list|, 0);
    }
    hide KeysDiffer, Contents;
    SameContents(node0, node);
    assert |node.Keys| == |node0.Keys|;
  }

  /** The chain from position `k` on, with a new handle in the place of the one with the same key. */
  lemma PutReady(node: Nodes, list: seq<Option<Id>>, chains: seq<seq<Id>>, h: Id, key: HashedKey, b: nat, k: nat,
          next: Option<Id>)
    requires BucketsOk(node, list, chains) && h !in node && b == Home(key, |list|) && k <= |chains[b]|
    requires k > 0 ==> chains[b][k - 1] in node
    requires Linked(node, if k < |chains[b]| then Some(chains[b][k]) else None, chains[b][k..])
    requires k < |chains[b]| ==> chains[b][k] in node && node[chains[b][k]].key == key
    requires next == if k < |chains[b]| then node[chains[b][k]].nextHash else None
    ensures CanSplice(node[h := Node(key, next)], node, |list|, chains[b], b, k, Some(h), [h] + Rest(chains[b], k),
                      if k < |chains[b]| then {chains[b][k]} else {})
  {
    hide Home, Linked, BucketsOk;
    InBucket(node, list, chains, b);
    var chain, rest := chains[b], Rest(chains[b], k);
    var node' := node[h := Node(key, next)];
    assert BucketOk(node, list[b], chain, b, |list|);
    PutLinked(node, chain, k, h, key, next);
    assert forall i | 0 <= i < |rest| :: rest[i] == chain[k + 1 + i];
    ChainMembers(node, list, chains, b);
    forall id | id in node' && id !in (if k < |chain| then {chain[k]} else {}) && Home(node'[id].key, |list|) == b
      ensures id in chain[..k] || id in [h] + rest
    {
      if id != h {
        Around(chain, k, id);
      }
    }
  }

  lemma InBucket(node: Nodes, list: seq<Option<Id>>, chains: seq<seq<Id>>, b: nat)
    requires BucketsOk(node, list, chains) && b < |list|
    ensures |chains| == |list| && BucketOk(node, list[b], chains[b], b, |list|)
  {
  }

  lemma PutLinked(node: Nodes, chain: seq<Id>, k: nat, h: Id, key: HashedKey, next: Option<Id>)
    requires h !in node && k <= |chain|
    requires Linked(node, if k < |chain| then Some(chain[k]) else None, chain[k..])
    requires if k < |chain| then chain[k] in node && next == node[chain[k]].nextHash else next == None
    ensures Linked(node[h := Node(key, next)], Some(h), [h] + Rest(chain, k))
  {
    var rest := Rest(chain, k);
    var node' := node[h := Node(key, next)];
    if k < |chain| {
      assert chain[k..][1..] == rest;
    }
    LinkedFrame(node, node', next, rest);
    assert ([h] + rest)[1..] == rest;
  }

  /** The search for a key in its bucket ended at position `k`. */
  ghost predicate FoundAt(node: Nodes, chain: seq<Id>, key: HashedKey, k: nat, found: Option<Id>) {
    && k <= |chain| && (k > 0 ==> chain[k - 1] in node)
    && found == (if k < |chain| then Some(chain[k]) else None)
    && Linked(node, found, chain[k..])
    && (if k < |chain| then chain[k] in node && node[chain[k]].key == key
        else forall id | id in node :: node[id].key != key)
  }

  function NextOfFound(node: Nodes, found: Option<Id>): Option<Id>
    requires found.Some? ==> found.value in node
  {
    if found.Some? then node[found.value].nextHash else None
  }

  function AsSet(found: Option<Id>): set<Id> {
    if found.Some? then {found.value} else {}
  }

  /** The table after a handle is put at position `k` of its bucket. */
  lemma PutTable(node: Nodes, list: seq<Option<Id>>, chains: seq<seq<Id>>, h: Id, key: HashedKey, k: nat,
          found: Option<Id>)
    requires BucketsOk(node, list, chains) && h !in node && FoundAt(node, chains[Home(key, |list|)], key, k, found)
    ensures var b := Home(key, |list|);
            var chain := chains[b];
            var node' := Spliced(node[h := Node(key, NextOfFound(node, found))], chain, k, Some(h), AsSet(found));
            BucketsOk(node', if k == 0 then list[b := Some(h)] else list,
                      chains[b := chain[..k] + ([h] + Rest(chain, k))])
  {
    hide Linked, NoDup, Home, BucketsOk, CanSplice;
    ChainCount(node, list, chains);
    var b := Home(key, |list|);
    var next := NextOfFound(node, found);
    PutReady(node, list, chains, h, key, b, k, next);
    SpliceBuckets(node[h := Node(key, next)], node, list, chains, b, k, Some(h),
                  [h] + Rest(chains[b], k), AsSet(found));
  }

  /** The map after a handle is put. */
  lemma PutMap(node: Nodes, chain: seq<Id>, h: Id, key: HashedKey, k: nat, found: Option<Id>)
    requires KeysDiffer(node) && h !in node && FoundAt(node, chain, key, k, found)
    ensures var node' := Spliced(node[h := Node(key, NextOfFound(node, found))], chain, k, Some(h), AsSet(found));
            && KeysDiffer(node') && Contents(node') == Contents(node)[key := h]
            && node'.Keys == node.Keys - AsSet(found) + {h} && |node'| == |node| + 1 - |AsSet(found)|
    ensures found == if key in Contents(node) then Some(Contents(node)[key]) else None
  {
    hide Contents, Spliced, KeysDiffer, FoundAt, AsSet, NextOfFound;
    FoundIsKey(node, chain, key, k, found);
    DropContents(node, key, found);
    PutSpliced(node, chain, h, key, k, NextOfFound(node, found), AsSet(found));
  }

  lemma PutSpliced(node: Nodes, chain: seq<Id>, h: Id, key: HashedKey, k: nat, next: Option<Id>, gone: set<Id>)
    requires KeysDiffer(node) && h !in node && gone <= node.Keys && k <= |chain| && (k > 0 ==> chain[k - 1] in node)
    requires forall id | id in node :: id in gone <==> node[id].key == key
    ensures var node' := Spliced(node[h := Node(key, next)], chain, k, Some(h), gone);
            && KeysDiffer(node') && Contents(node') == Contents(node)[key := h]
            && node'.Keys == node.Keys - gone + {h} && |node'| == |node| + 1 - |gone|
  {
    hide Contents, Spliced, KeysDiffer;
    PutContents(node, h, key, next, gone);
    SplicedSame(node[h := Node(key, next)], chain, k, Some(h), gone);
    AddedKey(node, h, Node(key, next));
    PutKeys(node, node[h := Node(key, next)], Spliced(node[h := Node(key, next)], chain, k, Some(h), gone), gone, h);
  }

  lemma AddedKey(node: Nodes, h: Id, n: Node)
    ensures node[h := n].Keys == node.Keys + {h}
  {
  }

  lemma PutKeys(node: Nodes, node1: Nodes, node': Nodes, gone: set<Id>, h: Id)
    requires h !in node && gone <= node.Keys && node1.Keys == node.Keys + {h} && node'.Keys == node1.Keys - gone
    ensures node'.Keys == node.Keys - gone + {h} && |node'| == |node| + 1 - |gone|
  {
    assert node'.Keys == node.Keys - gone + {h};
    KeyCount(node, node', gone, h);
  }

  lemma SplicedSame(node: Nodes, chain: seq<Id>, k: nat, q: Option<Id>, gone: set<Id>)
    requires k <= |chain| && (k > 0 ==> chain[k - 1] in node) && KeysDiffer(node - gone)
    ensures var node' := Spliced(node, chain, k, q, gone);
            node'.Keys == node.Keys - gone && KeysDiffer(node') && Contents(node') == Contents(node - gone)
  {
    SplicedKeys(node, chain, k, q, gone);
    SameContents(node - gone, Spliced(node, chain, k, q, gone));
  }

  lemma FoundIsKey(node: Nodes, chain: seq<Id>, key: HashedKey, k: nat, found: Option<Id>)
    requires KeysDiffer(node) && FoundAt(node, chain, key, k, found)
    ensures forall id | id in node :: id in AsSet(found) <==> node[id].key == key
    ensures AsSet(found) <= node.Keys && k <= |chain| && (k > 0 ==> chain[k - 1] in node)
    ensures if found.Some? then found.value in node && node[found.value].key == key else forall id | id in node ::
              node[id].key != key
  {
    hide Linked;
  }

  /** Only links and the handles that leave change. */
  lemma SplicedKeys(node: Nodes, chain: seq<Id>, k: nat, q: Option<Id>, gone: set<Id>)
    requires k <= |chain| && (k > 0 ==> chain[k - 1] in node)
    ensures Spliced(node, chain, k, q, gone).Keys == node.Keys - gone == (node - gone).Keys
    ensures forall id | id in node && id !in gone :: Spliced(node, chain, k, q, gone)[id].key == (node - gone)[id].key
  {
  }

  lemma KeyCount(node: Nodes, node': Nodes, gone: set<Id>, h: Id)
    requires node'.Keys == node.Keys - gone + {h} && h !in node && gone <= node.Keys
    ensures |node'| == |node| + 1 - |gone|
  {
    assert |node'.Keys| == |node.Keys - gone| + 1;
  }

  lemma ChainCount(node: Nodes, list: seq<Option<Id>>, chains: seq<seq<Id>>)
    requires BucketsOk(node, list, chains)
    ensures |chains| == |list|
  {
  }

  /** The table after the handle at position `k` is taken out. */
  lemma DropTable(node: Nodes, list: seq<Option<Id>>, chains: seq<seq<Id>>, key: HashedKey, k: nat)
    requires BucketsOk(node, list, chains) && KeysDiffer(node)
    requires var chain := chains[Home(key, |list|)];
             k < |chain| && FoundAt(node, chain, key, k, Some(chain[k]))
    ensures var b := Home(key, |list|);
            var chain, next := chains[b], node[chains[b][k]].nextHash;
            var node' := Spliced(node, chain, k, next, {chain[k]});
            && BucketsOk(node', if k == 0 then list[b := next] else list, chains[b := chain[..k] + Rest(chain, k)])
            && KeysDiffer(node') && Contents(node') == Contents(node) - {key}
            && node'.Keys == node.Keys - {chain[k]} && |node'| == |node| - 1
  {
    hide Linked, NoDup, Home, BucketsOk, Contents, CanSplice;
    ChainCount(node, list, chains);
    var b := Home(key, |list|);
    var chain, next := chains[b], node[chains[b][k]].nextHash;
    var node' := Spliced(node, chain, k, next, {chain[k]});
    DropReady(node, list, chains, key, b, k);
    SpliceBuckets(node, node, list, chains, b, k, next, Rest(chain, k), {chain[k]});
    DropContents(node, key, Some(chain[k]));
    SplicedSame(node, chain, k, next, {chain[k]});
    assert |node'.Keys| == |node.Keys| - 1;
  }

  lemma Around(chain: seq<Id>, k: nat, id: Id)
    requires k <= |chain| && id in chain && (k < |chain| ==> id != chain[k])
    ensures id in chain[..k] || id in Rest(chain, k)
  {
    var i :| 0 <= i < |chain| && chain[i] == id;
    if i < k {
      assert chain[..k][i] == id;
    } else {
      assert Rest(chain, k)[i - k - 1] == id;
    }
  }

  lemma ChainMembers(node: Nodes, list: seq<Option<Id>>, chains: seq<seq<Id>>, b: nat)
    requires BucketsOk(node, list, chains) && b < |list|
    ensures forall id | id in node && Home(node[id].key, |list|) == b :: id in chains[b]
  {
  }

  lemma DropReady(node: Nodes, list: seq<Option<Id>>, chains: seq<seq<Id>>, key: HashedKey, b: nat, k: nat)
    requires BucketsOk(node, list, chains) && b == Home(key, |list|) && k < |chains[b]|
    requires k > 0 ==> chains[b][k - 1] in node
    requires Linked(node, Some(chains[b][k]), chains[b][k..]) && chains[b][k] in node && node[chains[b][k]].key == key
    ensures CanSplice(node, node, |list|, chains[b], b, k, node[chains[b][k]].nextHash, Rest(chains[b], k),
                      {chains[b][k]})
  {
    hide Home;
    var chain, rest := chains[b], Rest(chains[b], k);
    assert BucketOk(node, list[b], chain, b, |list|);
    assert chain[k..][1..] == rest;
    hide Linked;
    assert forall i | 0 <= i < |rest| :: rest[i] == chain[k + 1 + i];
    ChainMembers(node, list, chains, b);
    forall id | id in node && id != chain[k] && Home(node[id].key, |list|) == b ensures id in chain[..k] || id in rest {
      Around(chain, k, id);
    }
  }

  lemma PutContents(node: Nodes, h: Id, key: HashedKey, next: Option<Id>, gone: set<Id>)
    requires KeysDiffer(node) && h !in node && h !in gone
    requires forall id | id in node :: id in gone <==> node[id].key == key
    ensures KeysDiffer(node[h := Node(key, next)] - gone)
    ensures Contents(node[h := Node(key, next)] - gone) == Contents(node)[key := h]
  {
    ContentsIsContents(node);
    hide Contents;
    ContentsUnique(node[h := Node(key, next)] - gone, Contents(node)[key := h]);
  }

  lemma DropContents(node: Nodes, key: HashedKey, found: Option<Id>)
    requires KeysDiffer(node)
    requires if found.Some? then found.value in node && node[found.value].key == key else forall id | id in node ::
               node[id].key != key
    ensures found == if key in Contents(node) then Some(Contents(node)[key]) else None
    ensures found.None? ==> Contents(node) - {key} == Contents(node)
    ensures found.Some? ==> KeysDiffer(node - {found.value}) && Contents(node - {found.value}) == Contents(node) - {key}
  {
    ContentsIsContents(node);
    hide Contents;
    if found.Some? {
      ContentsUnique(node - {found.value}, Contents(node) - {key});
    }
  }

  /** What follows position `k`. */
  function Rest(chain: seq<Id>, k: nat): seq<Id>
    requires k <= |chain|
  {
    if k < |chain| then chain[k + 1..] else []
  }
}
