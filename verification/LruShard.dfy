/** One shard of the LRU cache: a hash table, a list of evictable handles split into a low and a high priority
    pool, reference counts, and running totals of charges. */
module LruShard {
  import opened Options
  import opened LruTable
  import opened LruList
  import opened LruInvariant

  /** The list without one handle. */
  function Without(s: seq<Id>, e: Id): seq<Id> {
    if s == [] then [] else if s[0] == e then s[1..] else [s[0]] + Without(s[1..], e)
  }

  lemma {:induction false} WithoutAt(s: seq<Id>, i: nat)
    requires NoDup(s) && i < |s|
    ensures Without(s, s[i]) == s[..i] + s[i + 1..]
    decreases |s|
  {
    if i == 0 {
      assert s[..0] + s[1..] == s[1..];
    } else {
      assert s[1..][i - 1] == s[i] && s[0] != s[i];
      WithoutAt(s[1..], i - 1);
      assert s[..i] + s[i + 1..] == [s[0]] + (s[1..][..i - 1] + s[1..][i..]);
    }
  }

  /** The list from the dummy head on. */
  function RingOf(lru: seq<Id>): seq<Id> {
    [HEAD] + lru
  }

  /** Handles on the list are live, and those from position `lo` on are in the high priority pool. */
  ghost predicate Pools(mem: Handles, n: nat, lru: seq<Id>, lo: nat) {
    && lo <= |lru|
    && (forall k | 0 <= k < |lru| :: lru[k] in mem && 0 < lru[k] < n)
    && (forall k | 0 <= k < |lru| :: lru[k] in mem ==> (mem[lru[k]].inPool <==> k >= lo))
  }

  class Shard {
    var capacity: nat
    var strict: bool
    var ratio: real
    var poolCapacity: real
    var usage: nat
    var lruUsage: nat
    var poolUsage: nat
    var links: Links
    var lowPri: Id
    var mem: Handles
    var nextId: nat
    var freed: seq<Id>
    const table: HandleTable
    ghost var lru: seq<Id>
    ghost var lo: nat

    constructor ()
      ensures Valid() && fresh(table) && mem == map[] && lru == [] && capacity == 0 && !strict
      ensures ratio == 0.0 && usage == lruUsage == 0 && nextId == 1 && table.Map() == map[]
    {
      capacity, strict, ratio, poolCapacity := 0, false, 0.0, 0.0;
      usage, lruUsage, poolUsage := 0, 0, 0;
      links, lowPri := map[HEAD := Link(HEAD, HEAD)], HEAD;
      mem, nextId, freed := map[], 1, [];
      lru, lo := [], 0;
      table := new HandleTable();
      new;
      EmptyShard();
    }

    /** The list, its split into pools and the two totals that go with it. */
    ghost predicate ListOk()
      reads `links, `lowPri, `mem, `nextId, `lruUsage, `poolUsage, `lru, `lo
    {
      && Ring(links, RingOf(lru)) && lo <= |lru|
      && Pools(mem, nextId, lru, lo) && lowPri == RingOf(lru)[lo]
      && lruUsage == Sum(mem, Members(lru), nextId)
      && poolUsage == Sum(mem, Members(lru[lo..]), nextId)
    }

    /** The list holds exactly the evictable handles, the table those in the cache, and the totals are right. */
    ghost predicate Core()
      reads this, table
    {
      && ListOk() && MemOk(mem, nextId, usage, freed)
      && table.Valid() && TableAgrees(mem, table.Map(), table.node.Keys)
      && Members(lru) == EvictableIds(mem)
      && Config()
    }

    /** The high priority pool may take a share of the capacity. */
    ghost predicate Config()
      reads `ratio, `capacity, `poolCapacity
    {
      ratio >= 0.0 && poolCapacity == capacity as real * ratio && poolCapacity >= 0.0
    }

    /** Besides, only handles that are held can make the usage exceed the capacity. */
    ghost predicate Valid()
      reads this, table
    {
      Core() && (usage > capacity ==> lru == [])
    }

    /** The high priority pool is within its share of the capacity. */
    predicate PoolFits()
      reads `poolUsage, `poolCapacity
    {
      poolUsage as real <= poolCapacity
    }

    /** The list is `lru0` with `e` put where its priority says, and the border moved only as far as needed. */
    ghost predicate PutOn(lru0: seq<Id>, lo0: nat, e: Id)
      reads `mem, `nextId, `ratio, `poolCapacity, `lru, `lo
    {
      && e in mem
      && var high := ratio > 0.0 && mem[e].highPri;
         && lru == Inserted(lru0, lo0, e, high)
         && lo == if high then Border(mem, nextId, lru, lo0, poolCapacity) else lo0 + 1
    }

    // ---- The list

    /** Takes a handle off the list. */
    method LruRemove(e: Id)
      requires ListOk() && e in lru
      modifies `links, `lowPri, `lruUsage, `poolUsage, `lru, `lo
      ensures ListOk() && lru == Without(old(lru), e) && Members(lru) == Members(old(lru)) - {e}
      ensures e in mem && e !in lru && lruUsage == old(lruUsage) - mem[e].charge
      ensures lo == if e in old(lru)[..old(lo)] then old(lo) - 1 else old(lo)
      ensures poolUsage <= old(poolUsage)
    {
      hide Ring, Pools, Sum, Members, Without, Unlinked;
      ghost var i := IndexOf(lru, e);
      ghost var lru', lo' := lru[..i] + lru[i + 1..], if i < lo then lo - 1 else lo;
      RemoveFacts(mem, nextId, links, lru, lo, i);
      hide RingOf;
      if lowPri == e {
        lowPri := links[e].prev;
      }
      links := Unlinked(links, e);
      lruUsage := lruUsage - mem[e].charge;
      if mem[e].inPool {
        poolUsage := poolUsage - mem[e].charge;
      }
      lru, lo := lru', lo';
    }

    /** Puts a handle on the list: a high priority one at its end, another at the end of the low priority pool. */
    method LruInsert(e: Id)
      requires ListOk() && e in mem && 0 < e < nextId && e !in lru && poolCapacity >= 0.0
      modifies `links, `lowPri, `lruUsage, `poolUsage, `mem, `lru, `lo
      ensures ListOk() && SameButPool(old(mem), mem) && Members(lru) == Members(old(lru)) + {e}
      ensures PutOn(old(lru), old(lo), e) && (old(PoolFits()) ==> PoolFits())
      ensures ratio > 0.0 && old(mem)[e].highPri ==> PoolFits()
    {
      hide ListOk, Border;
      if ratio > 0.0 && mem[e].highPri {
        InsertHigh(e);
        ghost var mem1 := mem;
        MaintainPoolSize();
        BorderSame(mem1, mem, nextId, lru, old(lo), poolCapacity);
        SameTwice(old(mem), mem1, mem);
      } else {
        InsertLow(e);
      }
    }

    method InsertHigh(e: Id)
      requires ListOk() && e in mem && 0 < e < nextId && e !in lru
      modifies `links, `lruUsage, `poolUsage, `mem, `lru
      ensures ListOk() && SameButPool(old(mem), mem) && Members(lru) == Members(old(lru)) + {e}
      ensures lru == old(lru) + [e]
    {
      hide Ring, Pools, Sum, Members, LinkedAfter, RingOf;
      InsertFacts(mem, nextId, links, lru, lo, |lru|, e, true);
      assert lru[..|lru|] + [e] + lru[|lru|..] == lru + [e];
      lruUsage := lruUsage + mem[e].charge;
      links := LinkedAfter(links, links[HEAD].prev, e);
      poolUsage := poolUsage + mem[e].charge;
      mem := mem[e := mem[e].(inPool := true)];
      lru := lru + [e];
    }

    method InsertLow(e: Id)
      requires ListOk() && e in mem && 0 < e < nextId && e !in lru
      modifies `links, `lowPri, `lruUsage, `mem, `lru, `lo
      ensures ListOk() && SameButPool(old(mem), mem) && Members(lru) == Members(old(lru)) + {e}
      ensures lru == Inserted(old(lru), old(lo), e, false) && lo == old(lo) + 1
    {
      hide Ring, Pools, Sum, Members, LinkedAfter, RingOf;
      InsertFacts(mem, nextId, links, lru, lo, lo, e, false);
      lruUsage := lruUsage + mem[e].charge;
      links := LinkedAfter(links, lowPri, e);
      mem := mem[e := mem[e].(inPool := false)];
      lowPri := e;
      lru, lo := lru[..lo] + [e] + lru[lo..], lo + 1;
    }

    /** Moves handles from the high to the low priority pool until the high one is within its capacity. */
    method MaintainPoolSize()
      requires ListOk() && poolCapacity >= 0.0
      modifies `lowPri, `poolUsage, `mem, `lo
      ensures ListOk() && SameButPool(old(mem), mem) && PoolFits()
      ensures lo == Border(old(mem), nextId, lru, old(lo), poolCapacity)
    {
      hide Ring, Pools, Sum, Members, RingOf, SameButPool;
      SameAtAll(mem);
      while poolUsage as real > poolCapacity
        invariant ListOk() && SameButPool(old(mem), mem)
        invariant Border(old(mem), nextId, lru, old(lo), poolCapacity) == Border(mem, nextId, lru, lo, poolCapacity)
        decreases |lru| - lo
      {
        ghost var was := mem;
        PoolStep(mem, nextId, links, lru, lo);
        lowPri := links[lowPri].next;
        assert lowPri != HEAD;
        poolUsage := poolUsage - mem[lowPri].charge;
        SameFlag(old(mem), mem, lowPri, false);
        SameAtAll(mem);
        SameFlag(mem, mem, lowPri, false);
        mem := mem[lowPri := mem[lowPri].(inPool := false)];
        BorderSame(was, mem, nextId, lru, lo + 1, poolCapacity);
        lo := lo + 1;
      }
    }

    // ---- Eviction

    lemma EmptyShard()
      requires links == map[HEAD := Link(HEAD, HEAD)] && lowPri == HEAD && mem == map[] && nextId == 1 && freed == []
      requires lru == [] && lo == 0
      requires usage == 0 && lruUsage == 0 && poolUsage == 0
      ensures ListOk() && MemOk(mem, nextId, usage, freed) && Members(lru) == EvictableIds(mem)
    {
      SumEmpty(mem, nextId);
      assert Members(lru) == {} && Members(lru[lo..]) == {} && mem.Keys == {};
      assert RingOf(lru) == [HEAD];
      assert LinkAt(links, [HEAD], 0);
    }

    lemma FirstOnList()
      requires Core() && lru != []
      ensures HEAD in links && links[HEAD].next == lru[0] && lru[0] in mem && Without(lru, lru[0]) == lru[1..]
    {
      RingMember(links, RingOf(lru), 0);
    }

    /** A handle on the list is in the cache and held by nobody. */
    lemma OnListFacts(e: Id)
      requires Core() && e in lru
      ensures e in mem && mem[e].Evictable()
    {
      assert e in Members(lru);
    }

    /** Drops the last reference to a handle that is not on the list, and frees it. */
    method DropHandle(e: Id)
      requires ListOk() && MemOk(mem, nextId, usage, freed) && e in mem && mem[e].refs == 1 && e !in lru
      modifies `mem, `usage, `freed
      ensures ListOk() && MemOk(mem, nextId, usage, freed)
      ensures mem == old(mem) - {e} && freed == old(freed) + [e] && usage == old(usage) - old(mem)[e].charge
    {
      hide Ring, Pools, Sum, Members, MemOk;
      MemDrop(mem, nextId, usage, freed, e);
      ListFrame(mem, mem - {e}, nextId, nextId, lru, lo);
      mem := mem[e := mem[e].(refs := mem[e].refs - 1, inCache := false)];
      usage := usage - mem[e].charge;
      assert mem[e].refs == 0 && !mem[e].inCache;
      mem := mem - {e};
      assert mem == old(mem) - {e};
      freed := freed + [e];
    }

    /** Evicts a handle that is on the list. */
    method Evict(e: Id)
      requires Core() && e in lru
      modifies `links, `lowPri, `lruUsage, `poolUsage, `lru, `lo, `mem, `usage, `freed, table
      ensures Core()
      ensures e in old(mem) && mem == old(mem) - {e} && freed == old(freed) + [e] && lru == Without(old(lru), e)
      ensures usage == old(usage) - old(mem)[e].charge && usage - lruUsage == old(usage) - old(lruUsage)
      ensures table.Map() == old(table.Map()) - {old(mem)[e].key}
      ensures poolUsage <= old(poolUsage) && lo == if e in old(lru)[..old(lo)] then old(lo) - 1 else old(lo)
    {
      hide ListOk, MemOk, TableAgrees, HandleTable.Valid, Config, Sum, Members, EvictableIds, Without, Contents;
      OnListFacts(e);
      TableDrop(mem, table.Map(), table.node.Keys, e);
      EvictableDrop(mem, e);
      LruRemove(e);
      var _ := table.Remove(mem[e].key);
      DropHandle(e);
    }

    /** Evicts from the old end of the list, no more handles than it takes to make room for `charge`. */
    method EvictFromLru(charge: nat) returns (ghost d: nat)
      requires Core()
      modifies `links, `lowPri, `lruUsage, `poolUsage, `lru, `lo, `mem, `usage, `freed, table
      ensures Core() && (usage + charge <= capacity || lru == [])
      ensures Evicted(old(mem), old(lru), old(freed), d, mem, lru, freed)
      ensures usage - lruUsage == old(usage) - old(lruUsage) && usage <= old(usage)
      ensures d == Evictions(old(mem), old(lru), old(usage), charge, capacity)
      ensures lo == Minus(old(lo), d) && poolUsage <= old(poolUsage)
    {
      hide Core, Evicted, Evictions, Without;
      NoneEvicted(mem, lru, freed);
      HeadOfList();
      d := 0;
      while usage + charge > capacity && links[HEAD].next != HEAD
        invariant Core() && HEAD in links && (links[HEAD].next == HEAD <==> lru == [])
        invariant Evicted(old(mem), old(lru), old(freed), d, mem, lru, freed)
        invariant usage - lruUsage == old(usage) - old(lruUsage) && usage <= old(usage)
        invariant Evictions(old(mem), old(lru), old(usage), charge, capacity) ==
                  d + Evictions(old(mem), lru, usage, charge, capacity)
        invariant lo == Minus(old(lo), d) && poolUsage <= old(poolUsage) && lo <= |lru|
        decreases |lru|
      {
        FirstOnList();
        OneEvicted(old(mem), old(lru), old(freed), d, mem, lru, freed);
        EvictionsStep(old(mem), lru, usage, charge, capacity);
        assert lo > 0 ==> lru[..lo][0] == lru[0];
        Evict(links[HEAD].next);
        d := d + 1;
        HeadOfList();
      }
      EvictionsEnd(old(mem), lru, usage, charge, capacity);
    }

    lemma HeadOfList()
      requires Core()
      ensures HEAD in links && (links[HEAD].next == HEAD <==> lru == []) && lo <= |lru|
    {
      RingMember(links, RingOf(lru), 0);
      if lru != [] {
        RingNoDup(links, RingOf(lru));
        Distinct(RingOf(lru), 0, 1);
      }
    }

    // ---- References

    /** Changes the references of a handle off the list so that it is still not evictable. */
    method SetRefs(e: Id, refs: nat)
      requires ListOk() && MemOk(mem, nextId, usage, freed) && e in mem && e !in lru && refs >= 1
      requires table.Valid() && TableAgrees(mem, table.Map(), table.node.Keys)
      modifies `mem
      ensures ListOk() && MemOk(mem, nextId, usage, freed) && TableAgrees(mem, table.Map(), table.node.Keys)
      ensures mem == old(mem)[e := old(mem)[e].(refs := refs)]
    {
      hide Ring, Pools, Sum, Members, MemOk, TableAgrees, Contents, HandleTable.Valid;
      var h := mem[e].(refs := refs);
      MemSet(mem, nextId, usage, freed, e, h);
      TableSet(mem, table.Map(), table.node.Keys, e, h);
      ListFrame(mem, mem[e := h], nextId, nextId, lru, lo);
      mem := mem[e := h];
    }

    /** One more reference: a handle that was evictable leaves the list. */
    method AddRef(e: Id)
      requires Valid() && e in mem
      modifies `links, `lowPri, `lruUsage, `poolUsage, `lru, `lo, `mem
      ensures Valid()
      ensures mem == old(mem)[e := old(mem)[e].(refs := old(mem)[e].refs + 1)]
      ensures lru == if old(mem)[e].Evictable() then Without(old(lru), e) else old(lru)
      ensures poolUsage <= old(poolUsage)
    {
      hide ListOk, MemOk, TableAgrees, HandleTable.Valid, Config, Sum, EvictableIds, Without, Contents;
      OnList(e);
      EvictableSet(mem, e, mem[e].(refs := mem[e].refs + 1));
      if mem[e].inCache && mem[e].refs == 1 {
        LruRemove(e);
      } else {
        assert Members(lru) - {e} == Members(lru);
      }
      SetRefs(e, mem[e].refs + 1);
    }

    lemma OnList(e: Id)
      requires Core() && e in mem
      ensures e in lru <==> mem[e].Evictable()
      ensures mem[e].refs >= 1
    {
      assert e in Members(lru) <==> e in EvictableIds(mem);
    }

    /** Finds a handle by its key and takes a reference. */
    method Lookup(key: HashedKey) returns (r: Option<Id>)
      requires Valid()
      modifies `links, `lowPri, `lruUsage, `poolUsage, `lru, `lo, `mem
      ensures Valid()
      ensures r == if key in table.Map() then Some(table.Map()[key]) else None
      ensures r.None? ==> mem == old(mem) && lru == old(lru)
      ensures r.Some? ==>
                var e := r.value;
                && e in old(mem) && old(mem)[e].key == key && old(mem)[e].inCache
                && mem == old(mem)[e := old(mem)[e].(refs := old(mem)[e].refs + 1)]
                && lru == if old(mem)[e].Evictable() then Without(old(lru), e) else old(lru)
      ensures old(PoolFits()) ==> PoolFits()
    {
      hide ListOk, MemOk, HandleTable.Valid, Config, Sum, EvictableIds, Without, Contents;
      r := table.Lookup(key);
      if r.Some? {
        AddRef(r.value);
      }
    }

    /** Another reference to a handle. */
    method Ref(e: Id) returns (ok: bool)
      requires Valid() && e in mem
      modifies `links, `lowPri, `lruUsage, `poolUsage, `lru, `lo, `mem
      ensures Valid() && ok && (old(PoolFits()) ==> PoolFits())
      ensures mem == old(mem)[e := old(mem)[e].(refs := old(mem)[e].refs + 1)]
      ensures lru == if old(mem)[e].Evictable() then Without(old(lru), e) else old(lru)
      ensures poolUsage <= old(poolUsage)
    {
      AddRef(e);
      ok := true;
    }

    /** Gives a reference back. The handle is freed if that was the last one, or if nobody else holds it and the cache
        is over its capacity or the caller asks for it; if nobody else holds it otherwise, it goes on the list. */
    method Release(e: Id, force: bool) returns (last: bool)
      requires Valid() && e in mem && mem[e].Held() >= 1
      modifies `links, `lowPri, `lruUsage, `poolUsage, `lru, `lo, `mem, `usage, `freed, table
      ensures Valid() && (old(PoolFits()) ==> PoolFits())
      ensures last <==> old(mem)[e].refs == 1 || (old(mem)[e].Held() == 1 && (old(usage) > capacity || force))
      ensures last ==>
                && mem == old(mem) - {e} && freed == old(freed) + [e] && lru == old(lru)
                && usage == old(usage) - old(mem)[e].charge
                && table.Map() == if old(mem)[e].inCache then old(table.Map()) - {old(mem)[e].key} else old(table.Map())
      ensures !last ==>
                && SameButPool(old(mem)[e := old(mem)[e].(refs := old(mem)[e].refs - 1)], mem)
                && freed == old(freed) && usage == old(usage) && table.Map() == old(table.Map())
                && (old(mem)[e].Held() > 1 ==> lru == old(lru))
                && (old(mem)[e].Held() == 1 ==> PutOn(old(lru), old(lo), e))
    {
      hide Core, SameButPool, PutOn, HandleTable.Valid, HandleTable.Map;
      if mem[e].refs == 1 {
        ReleaseUncached(e);
        last := true;
      } else if mem[e].refs == 2 && mem[e].inCache {
        if usage > capacity || force {
          ReleaseEvict(e);
          last := true;
        } else {
          ReleaseToList(e);
          last := false;
        }
      } else {
        ReleaseOne(e);
        last := false;
      }
    }

    method ReleaseUncached(e: Id)
      requires Core() && e in mem && mem[e].refs == 1 && !mem[e].inCache
      modifies `mem, `usage, `freed
      ensures Core() && mem == old(mem) - {e} && freed == old(freed) + [e] && usage == old(usage) - old(mem)[e].charge
    {
      hide ListOk, MemOk, TableAgrees, HandleTable.Valid, Config, Sum, EvictableIds, Contents;
      OnList(e);
      TableDrop(mem, table.Map(), table.node.Keys, e);
      EvictableDrop(mem, e);
      assert Members(lru) - {e} == Members(lru);
      DropHandle(e);
    }

    /** A handle that nobody else holds leaves the cache. */
    method ReleaseEvict(e: Id)
      requires Core() && e in mem && mem[e].refs == 2 && mem[e].inCache
      modifies `mem, `usage, `freed, table
      ensures Core() && mem == old(mem) - {e} && freed == old(freed) + [e] && usage == old(usage) - old(mem)[e].charge
      ensures table.Map() == old(table.Map()) - {old(mem)[e].key}
    {
      hide ListOk, MemOk, TableAgrees, HandleTable.Valid, Config, Sum, EvictableIds, Contents;
      OnList(e);
      EvictableDrop(mem, e);
      assert Members(lru) - {e} == Members(lru);
      SetRefs(e, mem[e].refs - 1);
      TableDrop(mem, table.Map(), table.node.Keys, e);
      var _ := table.Remove(mem[e].key);
      DropHandle(e);
      assert mem == old(mem) - {e};
    }

    method ReleaseToList(e: Id)
      requires Core() && e in mem && mem[e].refs == 2 && mem[e].inCache
      modifies `links, `lowPri, `lruUsage, `poolUsage, `lru, `lo, `mem
      ensures Core() && SameButPool(old(mem)[e := old(mem)[e].(refs := 1)], mem)
      ensures PutOn(old(lru), old(lo), e) && (old(PoolFits()) ==> PoolFits())
    {
      hide ListOk, MemOk, TableAgrees, HandleTable.Valid, Sum, EvictableIds, Contents, SameButPool, PutOn;
      OnList(e);
      EvictableSet(mem, e, mem[e].(refs := 1));
      SetRefs(e, 1);
      ghost var mem1 := mem;
      LiveId(e);
      LruInsert(e);
      MemPool(mem1, mem, nextId, usage, freed);
      TablePool(mem1, mem, table.Map(), table.node.Keys);
      EvictablePool(mem1, mem);
    }

    lemma LiveId(e: Id)
      requires MemOk(mem, nextId, usage, freed) && e in mem
      ensures 0 < e < nextId && mem[e].refs >= 1
    {
    }

    method ReleaseOne(e: Id)
      requires Core() && e in mem && mem[e].refs >= 2 && !(mem[e].refs == 2 && mem[e].inCache)
      modifies `mem
      ensures Core() && SameButPool(old(mem)[e := old(mem)[e].(refs := old(mem)[e].refs - 1)], mem)
    {
      hide ListOk, MemOk, TableAgrees, HandleTable.Valid, Config, Sum, EvictableIds, Contents;
      OnList(e);
      EvictableSet(mem, e, mem[e].(refs := mem[e].refs - 1));
      assert Members(lru) - {e} == Members(lru);
      SetRefs(e, mem[e].refs - 1);
    }

    // ---- Entering and leaving the cache

    /** Takes a key out of the cache; its handle is freed if nobody holds it. */
    method Erase(key: HashedKey)
      requires Valid()
      modifies `links, `lowPri, `lruUsage, `poolUsage, `lru, `lo, `mem, `usage, `freed, table
      ensures Valid() && table.Map() == old(table.Map()) - {key} && (old(PoolFits()) ==> PoolFits())
      ensures key !in old(table.Map()) ==>
                mem == old(mem) && lru == old(lru) && freed == old(freed) && usage == old(usage)
      ensures key in old(table.Map()) ==>
                var e := old(table.Map())[key];
                && e in old(mem)
                && if old(mem)[e].refs == 1
                   then mem == old(mem) - {e} && freed == old(freed) + [e] && lru == Without(old(lru), e)
                   else
                     && mem == old(mem)[e := old(mem)[e].(inCache := false, refs := old(mem)[e].refs - 1)]
                     && freed == old(freed) && lru == old(lru)
    {
      hide ListOk, MemOk, TableAgrees, HandleTable.Valid, Config, Sum, EvictableIds, Without, Contents;
      ghost var m, ids := table.Map(), table.node.Keys;
      var r := table.Remove(key);
      if r.Some? {
        InTable(mem, m, ids, key);
        OnListOf(r.value);
        TableRetire(mem, m, ids, r.value);
        EvictableRetire(mem, r.value);
        RetireOld(r.value);
      } else {
        assert m - {key} == m && ids - {} == ids;
      }
    }

    lemma OnListOf(e: Id)
      requires ListOk() && MemOk(mem, nextId, usage, freed) && Members(lru) == EvictableIds(mem) && e in mem
      requires mem[e].inCache
      ensures e in lru <==> mem[e].refs == 1
      ensures mem[e].refs >= 1
    {
      assert e in Members(lru) <==> e in EvictableIds(mem);
    }

    /** Changes references and cache mark of a handle off the list. */
    method SetHandle(e: Id, h: Handle)
      requires ListOk() && MemOk(mem, nextId, usage, freed) && e in mem && e !in lru && h.refs >= 1
      requires h == mem[e].(refs := h.refs, inCache := h.inCache)
      modifies `mem
      ensures ListOk() && MemOk(mem, nextId, usage, freed) && mem == old(mem)[e := h]
    {
      hide Ring, Pools, Sum, Members, MemOk;
      MemSet(mem, nextId, usage, freed, e, h);
      ListFrame(mem, mem[e := h], nextId, nextId, lru, lo);
      mem := mem[e := h];
    }

    /** A new live handle. */
    method AddHandle(h: Handle) returns (e: Id)
      requires ListOk() && MemOk(mem, nextId, usage, freed) && h.refs >= 1
      modifies `mem, `nextId, `usage
      ensures ListOk() && MemOk(mem, nextId, usage, freed)
      ensures e == old(nextId) && e > 0 && e !in old(mem) && nextId == e + 1 && mem == old(mem)[e := h]
      ensures usage == old(usage) + h.charge && e !in lru
    {
      hide Ring, Sum, Members, Contents;
      e := nextId;
      MemAdd(mem, nextId, usage, freed, h);
      ListFrame(mem, mem[e := h], nextId, nextId + 1, lru, lo);
      mem, nextId, usage := mem[e := h], nextId + 1, usage + h.charge;
    }

    /** The handle that a new one replaces loses the reference of the table. */
    method RetireOld(o: Id)
      requires ListOk() && MemOk(mem, nextId, usage, freed) && o in mem && mem[o].inCache
      requires o in lru <==> mem[o].refs == 1
      modifies `links, `lowPri, `lruUsage, `poolUsage, `lru, `lo, `mem, `usage, `freed
      ensures ListOk() && MemOk(mem, nextId, usage, freed) && Members(lru) == Members(old(lru)) - {o}
      ensures mem == Retired(old(mem), o) && usage <= old(usage)
      ensures if old(mem)[o].refs == 1
              then lru == Without(old(lru), o) && freed == old(freed) + [o] && usage == old(usage) - old(mem)[o].charge
              else lru == old(lru) && freed == old(freed) && usage == old(usage)
      ensures lo == BorderWithout(old(lru), old(lo), if old(mem)[o].refs == 1 then Some(o) else None)
      ensures poolUsage <= old(poolUsage)
    {
      assert lo <= |lru|;
      hide ListOk, MemOk, Without;
      LiveId(o);
      if mem[o].refs == 1 {
        LruRemove(o);
        DropHandle(o);
      } else {
        assert Members(lru) - {o} == Members(lru);
        SetHandle(o, mem[o].(inCache := false, refs := mem[o].refs - 1));
      }
    }

    /** A new handle enters the cache in the place of the one with its key; with no reference asked for, it goes on the
        list. */
    method Enter(key: HashedKey, charge: nat, wanted: bool, highPri: bool) returns (e: Id)
      requires Core()
      modifies `links, `lowPri, `lruUsage, `poolUsage, `lru, `lo, `mem, `usage, `freed, `nextId, table
      ensures Core() && table.Map() == old(table.Map())[key := e]
      ensures e == old(nextId) && nextId == e + 1 && e !in old(mem)
      ensures SameButPool(EnterMem(old(mem), old(table.Map()), e, NewHandle(key, charge, wanted, highPri)), mem)
      ensures usage <= old(usage) + charge && freed == old(freed) + Opt(Leaver(old(mem), old(table.Map()), key))
      ensures e in mem && mem[e] == NewHandle(key, charge, wanted, highPri).(inPool := mem[e].inPool)
      ensures var o := Leaver(old(mem), old(table.Map()), key);
              var lru0, lo0 := WithoutOpt(old(lru), o), BorderWithout(old(lru), old(lo), o);
              if wanted then lru == lru0 && lo == lo0 else PutOn(lru0, lo0, e)
      ensures old(PoolFits()) ==> PoolFits()
    {
      hide ListOk, MemOk, TableAgrees, HandleTable.Valid, Sum, EvictableIds, EnterMem, Contents, PutOn, Leaver;
      e := Replace(NewHandle(key, charge, wanted, highPri));
      if wanted {
        SameAtAll(mem);
      } else {
        PutOnList(e);
      }
    }

    /** The new handle enters the table, and the one with its key is retired. */
    method Replace(h: Handle) returns (e: Id)
      requires Core() && h.inCache && 1 <= h.refs
      modifies `links, `lowPri, `lruUsage, `poolUsage, `lru, `lo, `mem, `usage, `freed, `nextId, table
      ensures ListOk() && MemOk(mem, nextId, usage, freed) && Config()
      ensures table.Valid() && TableAgrees(mem, table.Map(), table.node.Keys)
      ensures table.Map() == old(table.Map())[h.key := e]
      ensures EvictableIds(mem) == if h.Evictable() then Members(lru) + {e} else Members(lru)
      ensures e == old(nextId) && nextId == e + 1 && e !in old(mem) && e in mem && mem[e] == h && e !in lru
      ensures mem == EnterMem(old(mem), old(table.Map()), e, h) && usage <= old(usage) + h.charge
      ensures poolUsage <= old(poolUsage)
      ensures var o := Leaver(old(mem), old(table.Map()), h.key);
              && lru == WithoutOpt(old(lru), o) && lo == BorderWithout(old(lru), old(lo), o)
              && freed == old(freed) + Opt(o)
    {
      hide ListOk, MemOk, TableAgrees, HandleTable.Valid, Sum, EvictableIds, Without, Contents, Retired;
      ghost var m, ids, mem0, on := table.Map(), table.node.Keys, mem, Members(lru);
      ghost var o := if h.key in m then {m[h.key]} else {};
      EnterReady(h.key);
      e := AddHandle(h);
      EnterTable(mem0, m, ids, e, h);
      EvictableSet(mem0, e, h);
      NotInTable(mem0, m, ids, e);
      var r := table.Insert(e, h.key);
      if r.Some? {
        EvictableRetire(mem, r.value);
        RetiredOther(mem, r.value, e);
        RetireOld(r.value);
      } else {
        assert on - {} == on;
      }
      EnterSets(EvictableIds(mem0), mem0, e, o, h.Evictable());
      assert e !in Members(lru);
    }

    /** The new handle goes on the list. */
    method PutOnList(e: Id)
      requires ListOk() && MemOk(mem, nextId, usage, freed) && Config() && e in mem && e !in lru
      requires table.Valid() && TableAgrees(mem, table.Map(), table.node.Keys)
      requires Members(lru) + {e} == EvictableIds(mem)
      modifies `links, `lowPri, `lruUsage, `poolUsage, `lru, `lo, `mem
      ensures Core() && SameButPool(old(mem), mem) && PutOn(old(lru), old(lo), e) && (old(PoolFits()) ==> PoolFits())
    {
      hide ListOk, MemOk, TableAgrees, HandleTable.Valid, Sum, EvictableIds, Contents, SameButPool, PutOn;
      ghost var mem1 := mem;
      LiveId(e);
      LruInsert(e);
      MemPool(mem1, mem, nextId, usage, freed);
      TablePool(mem1, mem, table.Map(), table.node.Keys);
      EvictablePool(mem1, mem);
    }

    lemma EnterReady(key: HashedKey)
      requires Core()
      ensures key in table.Map() ==>
                var o := table.Map()[key];
                o in mem && mem[o].inCache && mem[o].refs >= 1 && (o in lru <==> mem[o].refs == 1)
      ensures forall id | id in lru :: id in mem
    {
      if key in table.Map() {
        OnListOf(table.Map()[key]);
      }
      forall id | id in lru ensures id in mem {
        assert id in Members(lru);
      }
    }

    /** Adds an entry. Handles are evicted first to make room. The entry is turned away exactly when the handles that
        are held leave no room for it, and the limit is strict or no reference to it is asked for; without a reference
        asked for it then counts as inserted and evicted at once. */
    method Insert(key: HashedKey, charge: nat, wanted: bool, highPri: bool)
      returns (ok: bool, handle: Option<Id>, ghost d: nat)
      requires Valid()
      modifies `links, `lowPri, `lruUsage, `poolUsage, `lru, `lo, `mem, `usage, `freed, `nextId, table
      ensures Valid() && (old(PoolFits()) ==> PoolFits())
      ensures d == Evictions(old(mem), old(lru), old(usage), charge, capacity) && d <= |old(lru)|
      ensures ok <==> !(wanted && strict && TooBig(old(usage) - old(lruUsage), charge))
      ensures handle.Some? <==> ok && wanted
      ensures nextId == old(nextId) + if ok then 1 else 0
      ensures Rejected(strict, wanted, TooBig(old(usage) - old(lruUsage), charge)) ==>
                && mem == old(mem) - Members(old(lru)[..d]) && lru == old(lru)[d..] && lo == Minus(old(lo), d)
                && freed == old(freed) + old(lru)[..d] + (if wanted then [] else [old(nextId)])
      ensures !Rejected(strict, wanted, TooBig(old(usage) - old(lruUsage), charge)) ==>
                && Accepted(old(mem), old(table.Map()), old(lru), old(lo), old(freed), d, old(nextId),
                            Handle(key, charge, if wanted then 2 else 1, true, highPri, false), wanted)
                && (wanted ==> handle == Some(old(nextId))) && (strict || !wanted ==> usage <= capacity)
      ensures strict && old(usage) <= capacity ==> usage <= capacity
    {
      hide Core, TableAgrees, Contents, HandleTable.Valid, HandleTable.Map, Evictions, Minus, Accepted, Evicted;
      CoreTable();
      ghost var m0, ids0 := table.Map(), table.node.Keys;
      d := EvictFromLru(charge);
      EmptyListUsage();
      EvictedParts(old(mem), old(lru), old(freed), d, mem, lru, freed);
      hide Members;
      handle := None;
      if usage - lruUsage + charge > capacity && (strict || !wanted) {
        ok := !wanted;
        if !wanted {
          PassThrough();
        }
      } else {
        var e := EnterAfter(key, charge, wanted, highPri, old(mem), m0, ids0, old(lru), old(lo), old(freed), d);
        ok := true;
        if wanted {
          handle := Some(e);
        }
      }
    }

    /** Handle `e` has entered after `d` evictions, and the one that it replaces has lost the cache's reference. */
    ghost predicate Accepted(mem0: Handles, m0: map<HashedKey, Id>, lru0: seq<Id>, lo0: nat, freed0: seq<Id>, d: nat,
            e: Id, h: Handle, wanted: bool)
      requires d <= |lru0|
      reads this, table
    {
      var o := LeaverAfter(mem0, m0, h.key, lru0[..d]);
      var lru1, lo1 := WithoutOpt(lru0[d..], o), BorderWithout(lru0[d..], Minus(lo0, d), o);
      && table.Valid() && h.key in table.Map() && table.Map()[h.key] == e
      && e in mem && mem[e] == h.(inPool := mem[e].inPool) && Entered(mem0, Members(lru0[..d]), e, h.key, mem)
      && freed == freed0 + lru0[..d] + Opt(o)
      && if wanted then lru == lru1 && lo == lo1 else PutOn(lru1, lo1, e)
    }

    method EnterAfter(key: HashedKey, charge: nat, wanted: bool, highPri: bool, ghost mem0: Handles,
            ghost m0: map<HashedKey, Id>, ghost ids0: set<Id>, ghost lru0: seq<Id>, ghost lo0: nat,
            ghost freed0: seq<Id>, ghost d: nat)
      returns (e: Id)
      requires Core() && TableAgrees(mem0, m0, ids0) && Evicted(mem0, lru0, freed0, d, mem, lru, freed)
      requires lo == Minus(lo0, d)
      modifies `links, `lowPri, `lruUsage, `poolUsage, `lru, `lo, `mem, `usage, `freed, `nextId, table
      ensures Core() && e == old(nextId) && nextId == e + 1 && usage <= old(usage) + charge
      ensures old(PoolFits()) ==> PoolFits()
      ensures Accepted(mem0, m0, lru0, lo0, freed0, d, e, NewHandle(key, charge, wanted, highPri), wanted)
      ensures wanted && old(lru) == [] ==> lru == []
    {
      hide Core, EnterMem, SameButPool, Members, Entered, TableAgrees, Contents, HandleTable.Valid, PutOn, Leaver,
           LeaverAfter;
      hide WithoutOpt, BorderWithout, Opt, Minus;
      CoreTable();
      ghost var mem1, m, ids := mem, table.Map(), table.node.Keys;
      e := Enter(key, charge, wanted, highPri);
      CoreTable();
      EnteredFrom(mem0, Members(lru0[..d]), mem1, m, ids, e, NewHandle(key, charge, wanted, highPri), mem);
      LeaverFrom(mem0, m0, ids0, lru0[..d], mem1, m, ids, key);
      WithoutNone(Leaver(mem1, m, key));
    }

    lemma CoreTable()
      requires Core()
      ensures table.Valid() && TableAgrees(mem, table.Map(), table.node.Keys)
      ensures forall id | id in mem :: mem[id].refs >= 1
    {
    }

    predicate TooBig(pinned: int, charge: nat)
      reads `capacity
    {
      pinned + charge > capacity
    }

    lemma EmptyListUsage()
      requires Core()
      ensures lru == [] ==> lruUsage == 0
    {
      if lru == [] {
        SumEmpty(mem, nextId);
        assert Members(lru) == {};
      }
    }

    /** A handle that is made and freed at once. */
    method PassThrough()
      requires Core()
      modifies `nextId, `freed
      ensures Core() && freed == old(freed) + [old(nextId)] && nextId == old(nextId) + 1
    {
      hide Ring, Sum, Members, TableAgrees, HandleTable.Valid, EvictableIds, Config, Contents;
      MemPass(mem, nextId, usage, freed);
      ListFrame(mem, mem, nextId, nextId + 1, lru, lo);
      freed, nextId := freed + [nextId], nextId + 1;
    }

    /** Evicts everything that nobody holds. */
    method EraseUnRefEntries()
      requires Valid()
      modifies `links, `lowPri, `lruUsage, `poolUsage, `lru, `lo, `mem, `usage, `freed, table
      ensures Valid() && lru == [] && lruUsage == 0 && usage == old(usage) - old(lruUsage)
      ensures old(PoolFits()) ==> PoolFits()
      ensures freed == old(freed) + old(lru) && mem == old(mem) - EvictableIds(old(mem))
    {
      hide Core, EvictableIds, Evicted;
      ListIsEvictable();
      NoneEvicted(mem, lru, freed);
      HeadOfList();
      ghost var d := 0;
      while links[HEAD].next != HEAD
        invariant Core() && HEAD in links && (links[HEAD].next == HEAD <==> lru == [])
        invariant Evicted(old(mem), old(lru), old(freed), d, mem, lru, freed)
        invariant usage - lruUsage == old(usage) - old(lruUsage) && poolUsage <= old(poolUsage)
        decreases |lru|
      {
        FirstOnList();
        OneEvicted(old(mem), old(lru), old(freed), d, mem, lru, freed);
        Evict(links[HEAD].next);
        d := d + 1;
        HeadOfList();
      }
      EmptyListUsage();
      AllEvicted(old(mem), old(lru), old(freed), d, mem, lru, freed);
    }

    lemma ListIsEvictable()
      requires Core()
      ensures Members(lru) == EvictableIds(mem)
    {
    }

    /** A smaller capacity evicts handles, but does not rebalance the pools: the high priority pool is within its new
        share exactly if what the evictions leave of it is. */
    method SetCapacity(newCapacity: nat) returns (ghost d: nat)
      requires Valid()
      modifies `capacity, `poolCapacity, `links, `lowPri, `lruUsage, `poolUsage, `lru, `lo, `mem, `usage, `freed, table
      ensures Valid() && capacity == newCapacity
      ensures Evicted(old(mem), old(lru), old(freed), d, mem, lru, freed)
      ensures usage > capacity ==> lru == [] && usage == old(usage) - old(lruUsage)
      ensures d == Evictions(old(mem), old(lru), old(usage), 0, newCapacity)
      ensures lo == Minus(old(lo), d) && poolCapacity == newCapacity as real * ratio
      ensures PoolFits() <==> PoolLeft(old(mem), nextId, old(lru), old(lo), d) as real <= newCapacity as real * ratio
    {
      hide ListOk, MemOk, TableAgrees, HandleTable.Valid, EvictableIds, Contents, Evicted, PoolLeft;
      HeadOfList();
      capacity := newCapacity;
      poolCapacity := capacity as real * ratio;
      ShareOfCapacity(capacity, ratio);
      d := EvictFromLru(0);
      EmptyListUsage();
      PoolAfter(old(mem), old(lru), old(lo), old(freed), d);
    }

    lemma PoolAfter(mem0: Handles, lru0: seq<Id>, lo0: nat, freed0: seq<Id>, d: nat)
      requires Core() && Evicted(mem0, lru0, freed0, d, mem, lru, freed) && lo == Minus(lo0, d) && lo0 <= |lru0|
      ensures poolUsage == PoolLeft(mem0, nextId, lru0, lo0, d)
    {
      var high := lru[lo..];
      assert high == lru0[if lo0 > d then lo0 else d..];
      assert forall id | id in high :: id in lru;
      forall id | id in high ensures id in mem {
        assert id in Members(lru);
      }
      SumSame(mem0, mem, Members(high), Members(high), nextId);
    }

    method SetStrictCapacityLimit(value: bool)
      requires Valid()
      modifies `strict
      ensures Valid() && strict == value
    {
      strict := value;
    }

    /** Sets the share of the high priority pool and brings it within bounds. */
    method SetHighPriorityPoolRatio(value: real)
      requires Valid() && value >= 0.0
      modifies `ratio, `poolCapacity, `lowPri, `poolUsage, `mem, `lo
      ensures Valid() && ratio == value && PoolFits() && poolCapacity == capacity as real * ratio
      ensures SameButPool(old(mem), mem) && lo == Border(old(mem), nextId, lru, old(lo), poolCapacity)
    {
      hide ListOk, MemOk, TableAgrees, HandleTable.Valid, Sum, Members, EvictableIds, Contents, SameButPool;
      ratio := value;
      poolCapacity := capacity as real * ratio;
      ShareOfCapacity(capacity, ratio);
      MaintainPoolSize();
      MemPool(old(mem), mem, nextId, usage, freed);
      TablePool(old(mem), mem, table.Map(), table.node.Keys);
      EvictablePool(old(mem), mem);
    }

    lemma WhenEmpty()
      requires Valid() && mem == map[]
      ensures usage == 0 && lruUsage == 0 && lru == [] && lo == 0 && table.Map() == map[]
    {
      SumEmpty(mem, nextId);
      assert mem.Keys == {} && Members(lru) == {};
      FirstMember(lru);
      assert forall k :: k !in table.Map();
    }

    /** The first handle of a shard goes to the high priority pool if it fits. */
    lemma FirstAccepted(freed0: seq<Id>, h: Handle)
      requires Valid() && Accepted(map[], map[], [], 0, freed0, 0, 1, h, false) && nextId == 2
      requires h.highPri && ratio > 0.0 && h.charge as real <= poolCapacity
      ensures lru == [1] && lo == 0 && 1 in mem && mem[1].charge == h.charge == usage
    {
      hide Ring, Pools, HandleTable.Valid, TableAgrees;
      assert mem.Keys == {1} == Members([1]);
      assert lru == [1] && lru[0..] == [1];
      OneSum(mem, 1);
    }

    /** The charge of the handles that somebody holds. */
    method GetPinnedUsage() returns (r: nat)
      requires Valid()
      ensures r == Sum(mem, HeldIds(mem), nextId)
    {
      PinnedIsHeld(mem, nextId);
      assert Members(lru) == EvictableIds(mem);
      r := usage - lruUsage;
    }
  }

  /** A shard of capacity 10, half of it for the high priority pool. */
  method HalfForHigh() returns (s: Shard)
    ensures fresh(s) && fresh(s.table) && s.Valid() && s.ratio == 0.5
    ensures s.capacity == 10 && s.poolCapacity == 5.0 && s.mem == map[] && s.nextId == 1
  {
    hide Shard.Core, Evictions, PoolLeft, Border, HandleTable.Map, HandleTable.Valid;
    s := new Shard();
    var d := s.SetCapacity(10);
    s.SetHighPriorityPoolRatio(0.5);
  }

  /** The same with the pool full. */
  method FullPool(key: HashedKey) returns (s: Shard)
    ensures fresh(s) && fresh(s.table) && s.Valid() && s.ratio == 0.5
    ensures s.lru == [1] && s.lo == 0 && s.nextId == 2 && 1 in s.mem && s.mem[1].charge == 5 && s.usage == 5
  {
    hide Shard.Core, Shard.Accepted, Entered, HandleTable.Map, Border;
    s := HalfForHigh();
    s.WhenEmpty();
    ghost var freed0 := s.freed;
    var ok, handle, d := s.Insert(key, 5, false, true);
    s.FirstAccepted(freed0, NewHandle(key, 5, false, true));
  }

  /** A run after which the high priority pool exceeds its share: the capacity shrinks to 6, where nothing has to be
      evicted and the share is 3. */
  method PoolLapses(key: HashedKey) returns (s: Shard)
    ensures fresh(s) && fresh(s.table) && s.Valid() && s.usage <= s.capacity && !s.PoolFits()
  {
    s := FullPool(key);
    OneSum(s.mem, 1);
    assert s.lru[0..] == [1];
    var d := s.SetCapacity(6);
  }

  lemma OneSum(mem: Handles, e: Id)
    requires e in mem
    ensures Sum(mem, Members([e]), e + 1) == mem[e].charge
  {
    SumEmpty(mem, e + 1);
    SumAdd(mem, {}, e + 1, e);
    assert Members([e]) == {} + {e};
  }

  /** The charge of the high priority pool after `d` evictions from the old end of the list. */
  ghost function PoolLeft(mem: Handles, n: nat, lru: seq<Id>, lo: nat, d: nat): nat {
    var from := if lo > d then lo else d;
    if from <= |lru| then Sum(mem, Members(lru[from..]), n) else 0
  }

  lemma ShareOfCapacity(capacity: nat, ratio: real)
    requires ratio >= 0.0
    ensures capacity as real * ratio >= 0.0
  {
  }

  /** Handles with references from outside of the cache. */
  ghost function HeldIds(mem: Handles): set<Id> {
    set id | id in mem && mem[id].Held() >= 1
  }

  lemma PinnedIsHeld(mem: Handles, n: nat)
    requires forall id | id in mem :: mem[id].refs >= 1
    ensures Sum(mem, mem.Keys, n) == Sum(mem, EvictableIds(mem), n) + Sum(mem, HeldIds(mem), n)
  {
    assert mem.Keys == EvictableIds(mem) + HeldIds(mem);
    assert EvictableIds(mem) !! HeldIds(mem);
    SumSplit(mem, EvictableIds(mem), HeldIds(mem), n);
  }

  predicate Rejected(strict: bool, wanted: bool, tooBig: bool) {
    tooBig && (strict || !wanted)
  }

  /** A new handle: one reference from the cache, and one for the caller if they asked for it. */
  function NewHandle(key: HashedKey, charge: nat, wanted: bool, highPri: bool): Handle {
    Handle(key, charge, if wanted then 2 else 1, true, highPri, false)
  }

  /** The handles after a new one has entered. */
  ghost function EnterMem(mem: Handles, m: map<HashedKey, Id>, e: Id, h: Handle): Handles {
    var mem' := mem[e := h];
    if h.key in m && m[h.key] in mem' && mem'[m[h.key]].refs >= 1 then Retired(mem', m[h.key]) else mem'
  }

  /** Handle `e` has entered under `key`, with the handles of `gone` evicted first. Of the others, only the one that
      was in the cache under that key loses the cache's reference, and is freed if that was its last. */
  ghost predicate Entered(mem0: Handles, gone: set<Id>, e: Id, key: HashedKey, mem: Handles) {
    && (forall id | id in mem :: id == e || (id in mem0 && id !in gone))
    && (forall id | id in mem0 && id !in gone && !(mem0[id].inCache && mem0[id].key == key) ::
          id in mem && mem[id] == mem0[id].(inPool := mem[id].inPool))
    && (forall id | id in mem0 && id !in gone && mem0[id].inCache && mem0[id].key == key ::
          if mem0[id].refs == 1 then id !in mem
          else id in mem && mem0[id].refs >= 1 &&
               mem[id] == mem0[id].(inCache := false, refs := mem0[id].refs - 1, inPool := mem[id].inPool))
  }

  lemma EnteredFrom(mem0: Handles, gone: set<Id>, mem1: Handles, m: map<HashedKey, Id>, ids: set<Id>, e: Id, h: Handle,
          mem: Handles)
    requires mem1 == mem0 - gone && TableAgrees(mem1, m, ids) && e !in mem1
    requires forall id | id in mem1 :: mem1[id].refs >= 1
    requires SameButPool(EnterMem(mem1, m, e, h), mem)
    ensures Entered(mem0, gone, e, h.key, mem)
  {
    forall id | id in mem1 ensures mem1[id].inCache && mem1[id].key == h.key <==> h.key in m && m[h.key] == id {
    }
  }

  /** The handle that a new one with this key frees: the one under the key, if nobody holds it. */
  ghost function Leaver(mem: Handles, m: map<HashedKey, Id>, key: HashedKey): Option<Id> {
    if key in m && m[key] in mem && mem[m[key]].refs == 1 then Some(m[key]) else None
  }

  /** The same once the handles of `gone` have been evicted. */
  ghost function LeaverAfter(mem: Handles, m: map<HashedKey, Id>, key: HashedKey, gone: seq<Id>): Option<Id> {
    if key in m && m[key] !in gone then Leaver(mem, m, key) else None
  }

  lemma LeaverFrom(mem0: Handles, m0: map<HashedKey, Id>, ids0: set<Id>, gone: seq<Id>, mem1: Handles,
                   m1: map<HashedKey, Id>, ids1: set<Id>, key: HashedKey)
    requires TableAgrees(mem0, m0, ids0) && TableAgrees(mem1, m1, ids1) && mem1 == mem0 - Members(gone)
    ensures Leaver(mem1, m1, key) == LeaverAfter(mem0, m0, key, gone)
  {
    if key in m0 && m0[key] !in gone {
      assert m0[key] in mem1 && mem1[m0[key]].inCache;
    }
    if key in m1 {
      assert m1[key] in mem0 && mem0[m1[key]].inCache;
    }
  }

  function Minus(a: nat, b: nat): nat {
    if a > b then a - b else 0
  }

  /** How many handles have to leave from the old end of the list to make room for `charge`, as far as there are any. */
  ghost function Evictions(mem: Handles, lru: seq<Id>, usage: int, charge: nat, capacity: nat): (d: nat)
    ensures d <= |lru|
  {
    if usage + charge <= capacity || lru == [] || lru[0] !in mem then 0
    else 1 + Evictions(mem, lru[1..], usage - mem[lru[0]].charge, charge, capacity)
  }

  lemma EvictionsStep(mem: Handles, lru: seq<Id>, usage: int, charge: nat, capacity: nat)
    requires usage + charge > capacity && lru != [] && lru[0] in mem
    ensures Evictions(mem, lru, usage, charge, capacity) ==
            1 + Evictions(mem, lru[1..], usage - mem[lru[0]].charge, charge, capacity)
  {
  }

  lemma EvictionsEnd(mem: Handles, lru: seq<Id>, usage: int, charge: nat, capacity: nat)
    requires usage + charge <= capacity || lru == []
    ensures Evictions(mem, lru, usage, charge, capacity) == 0
  {
  }

  /** It is the least number of evictions that makes room, or all of them. */
  lemma {:induction false} EvictionsLeast(mem: Handles, lru: seq<Id>, usage: int, charge: nat, capacity: nat, n: nat)
    requires NoDup(lru) && forall id | id in lru :: id in mem && id < n
    ensures var d := Evictions(mem, lru, usage, charge, capacity);
            && (d == |lru| || usage - Sum(mem, Members(lru[..d]), n) + charge <= capacity)
            && forall c | 0 <= c < d :: usage - Sum(mem, Members(lru[..c]), n) + charge > capacity
  {
    SumEmpty(mem, n);
    assert Members(lru[..0]) == {};
    if usage + charge > capacity && lru != [] {
      assert NoDup(lru[1..]) && forall id | id in lru[1..] :: id in lru;
      EvictionsLeast(mem, lru[1..], usage - mem[lru[0]].charge, charge, capacity, n);
      forall c | 1 <= c <= |lru|
        ensures Sum(mem, Members(lru[..c]), n) == mem[lru[0]].charge + Sum(mem, Members(lru[1..][..c - 1]), n)
      {
        PrefixSum(mem, lru, c, n);
      }
    }
  }

  lemma PrefixSum(mem: Handles, lru: seq<Id>, c: nat, n: nat)
    requires NoDup(lru) && 1 <= c <= |lru| && lru[0] in mem && lru[0] < n
    ensures Sum(mem, Members(lru[..c]), n) == mem[lru[0]].charge + Sum(mem, Members(lru[1..][..c - 1]), n)
  {
    var s := lru[..c];
    MembersRemove(s, 0);
    assert s[..0] + s[1..] == lru[1..][..c - 1];
    SumRemove(mem, Members(s), n, lru[0]);
  }

  /** Where the border between the pools comes to rest: the first place from which on the charge fits. */
  ghost function Border(mem: Handles, n: nat, lru: seq<Id>, lo: nat, capacity: real): (r: nat)
    decreases |lru| - lo
  {
    if lo >= |lru| || Sum(mem, Members(lru[lo..]), n) as real <= capacity then lo
    else Border(mem, n, lru, lo + 1, capacity)
  }

  /** It moves no further than it has to. */
  lemma {:induction false} BorderIsFirst(mem: Handles, n: nat, lru: seq<Id>, lo: nat, capacity: real)
    requires lo <= |lru|
    ensures var r := Border(mem, n, lru, lo, capacity);
            && lo <= r <= |lru| && (r < |lru| ==> Sum(mem, Members(lru[r..]), n) as real <= capacity)
            && forall k | lo <= k < r :: Sum(mem, Members(lru[k..]), n) as real > capacity
    decreases |lru| - lo
  {
    if lo < |lru| && Sum(mem, Members(lru[lo..]), n) as real > capacity {
      BorderIsFirst(mem, n, lru, lo + 1, capacity);
    }
  }

  lemma {:induction false} BorderSame(mem: Handles, mem': Handles, n: nat, lru: seq<Id>, lo: nat, capacity: real)
    requires SameButPool(mem, mem')
    ensures Border(mem, n, lru, lo, capacity) == Border(mem', n, lru, lo, capacity)
    decreases |lru| - lo
  {
    if lo < |lru| {
      SumSame(mem, mem', Members(lru[lo..]), Members(lru[lo..]), n);
      BorderSame(mem, mem', n, lru, lo + 1, capacity);
    }
  }

  function Opt(o: Option<Id>): seq<Id> {
    if o.Some? then [o.value] else []
  }

  function WithoutOpt(lru: seq<Id>, o: Option<Id>): seq<Id> {
    if o.Some? then Without(lru, o.value) else lru
  }

  lemma WithoutNone(o: Option<Id>)
    ensures WithoutOpt([], o) == []
  {
  }

  /** The border between the pools once `o` has left the list. */
  function BorderWithout(lru: seq<Id>, lo: nat, o: Option<Id>): nat {
    if o.Some? && lo <= |lru| && o.value in lru[..lo] then lo - 1 else lo
  }

  lemma EnterSets(ev: set<Id>, mem: Handles, e: Id, o: set<Id>, evictable: bool)
    requires e !in mem && ev == EvictableIds(mem) && o <= mem.Keys
    ensures (if evictable then ev + {e} else ev - {e}) - o == if evictable then ev - o + {e} else ev - o
    ensures e !in ev - o && ev - {} == ev
    ensures (if evictable then ev + {e} else ev - {e}) - {} == if evictable then ev + {e} else ev - {e}
  {
    assert e !in ev;
  }

  ghost function IndexOf(s: seq<Id>, e: Id): (i: nat)
    requires e in s
    ensures i < |s| && s[i] == e
  {
    var i :| 0 <= i < |s| && s[i] == e; i
  }

  /** The list with a new handle: at the end, or at the end of the low priority pool. */
  function Inserted(lru: seq<Id>, lo: nat, e: Id, high: bool): (r: seq<Id>)
    ensures lo <= |lru| ==>
              var p := if high then |lru| else lo;
              |r| == |lru| + 1 && r[p] == e && r[..p] == lru[..p] && r[p + 1..] == lru[p..]
  {
    if high then lru + [e] else if lo <= |lru| then lru[..lo] + [e] + lru[lo..] else lru
  }

  /** The first `d` handles of the list have been evicted, in that order. */
  ghost predicate Evicted(mem0: Handles, lru0: seq<Id>, freed0: seq<Id>, d: nat, mem: Handles, lru: seq<Id>,
          freed: seq<Id>) {
    d <= |lru0| && lru == lru0[d..] && freed == freed0 + lru0[..d] && mem == mem0 - Members(lru0[..d])
  }

  lemma EvictedParts(mem0: Handles, lru0: seq<Id>, freed0: seq<Id>, d: nat, mem: Handles, lru: seq<Id>, freed: seq<Id>)
    requires Evicted(mem0, lru0, freed0, d, mem, lru, freed)
    ensures d <= |lru0| && lru == lru0[d..] && freed == freed0 + lru0[..d] && mem == mem0 - Members(lru0[..d])
  {
  }

  lemma NoneEvicted(mem: Handles, lru: seq<Id>, freed: seq<Id>)
    ensures Evicted(mem, lru, freed, 0, mem, lru, freed)
  {
    assert Members(lru[..0]) == {};
    assert mem - {} == mem;
  }

  lemma AllEvicted(mem0: Handles, lru0: seq<Id>, freed0: seq<Id>, d: nat, mem: Handles, lru: seq<Id>, freed: seq<Id>)
    requires Evicted(mem0, lru0, freed0, d, mem, lru, freed) && lru == []
    ensures freed == freed0 + lru0 && mem == mem0 - Members(lru0)
  {
    assert d == |lru0| && lru0[..d] == lru0;
  }

  lemma OneEvicted(mem0: Handles, lru0: seq<Id>, freed0: seq<Id>, d: nat, mem: Handles, lru: seq<Id>, freed: seq<Id>)
    requires Evicted(mem0, lru0, freed0, d, mem, lru, freed) && lru != [] && lru[0] in mem
    ensures d < |lru0| && lru0[d] == lru[0] && lru[0] in mem0 && mem0[lru[0]] == mem[lru[0]]
    ensures Evicted(mem0, lru0, freed0, d + 1, mem - {lru[0]}, lru[1..], freed + [lru[0]])
  {
    MembersNext(lru0, d + 1);
    hide Members;
    assert mem - {lru[0]} == mem0 - Members(lru0[..d + 1]);
    assert freed + [lru[0]] == freed0 + lru0[..d + 1];
  }

  lemma FirstMember(s: seq<Id>)
    ensures s == [] || s[0] in Members(s)
  {
  }

  lemma MembersNext(s: seq<Id>, d: nat)
    requires 0 < d <= |s|
    ensures Members(s[..d]) == Members(s[..d - 1]) + {s[d - 1]}
    ensures s[..d] == s[..d - 1] + [s[d - 1]]
  {
    assert s[..d] == s[..d - 1] + [s[d - 1]];
  }

  /** The list does not depend on other handles, nor on references and cache marks. */
  lemma ListFrame(mem: Handles, mem': Handles, n: nat, n': nat, lru: seq<Id>, lo: nat)
    requires Pools(mem, n, lru, lo) && n <= n'
    requires forall k | 0 <= k < |lru| && lru[k] in mem ::
               lru[k] in mem' && mem'[lru[k]].charge == mem[lru[k]].charge && mem'[lru[k]].inPool == mem[lru[k]].inPool
    ensures Pools(mem', n', lru, lo)
    ensures Sum(mem', Members(lru), n') == Sum(mem, Members(lru), n)
    ensures Sum(mem', Members(lru[lo..]), n') == Sum(mem, Members(lru[lo..]), n)
  {
    SumSame(mem, mem', Members(lru), Members(lru), n);
    SumSame(mem, mem', Members(lru[lo..]), Members(lru[lo..]), n);
    SumAbove(mem', Members(lru), n, n');
    SumAbove(mem', Members(lru[lo..]), n, n');
  }

  lemma {:induction false} SumAbove(mem: Handles, s: set<Id>, n: nat, n': nat)
    requires n <= n' && forall id | id in s :: id < n
    ensures Sum(mem, s, n') == Sum(mem, s, n)
    decreases n'
  {
    if n < n' {
      SumAbove(mem, s, n, n' - 1);
    }
  }

  /** The first handle of the high priority pool becomes the last of the low priority pool. */
  lemma PoolStep(mem: Handles, n: nat, links: Links, lru: seq<Id>, lo: nat)
    requires Ring(links, RingOf(lru)) && Pools(mem, n, lru, lo) && Sum(mem, Members(lru[lo..]), n) > 0
    ensures RingOf(lru)[lo] in links && lo < |lru|
    ensures var e := lru[lo];
            var mem' := mem[e := mem[e].(inPool := false)];
            && links[RingOf(lru)[lo]].next == e == RingOf(lru)[lo + 1] && e != HEAD && e in mem
            && Pools(mem', n, lru, lo + 1)
            && Sum(mem, Members(lru[lo..]), n) == Sum(mem', Members(lru[lo + 1..]), n) + mem[e].charge
            && Sum(mem', Members(lru), n) == Sum(mem, Members(lru), n)
            && Sum(mem', Members(lru[lo..]), n) == Sum(mem, Members(lru[lo..]), n)
  {
    hide Ring, RingOf;
    PoolNotEmpty(mem, n, lru, lo);
    PoolStepRing(links, lru, lo);
    PoolStepSums(mem, n, lru, lo);
  }

  lemma PoolNotEmpty(mem: Handles, n: nat, lru: seq<Id>, lo: nat)
    requires lo <= |lru| && Sum(mem, Members(lru[lo..]), n) > 0
    ensures lo < |lru|
  {
    if lo == |lru| {
      assert Members(lru[lo..]) == {};
      SumEmpty(mem, n);
    }
  }

  lemma PoolStepRing(links: Links, lru: seq<Id>, lo: nat)
    requires Ring(links, RingOf(lru)) && lo < |lru|
    ensures RingOf(lru)[lo] in links && links[RingOf(lru)[lo]].next == lru[lo] == RingOf(lru)[lo + 1] && lru[lo] != HEAD
    ensures NoDup(lru)
  {
    RingMember(links, RingOf(lru), lo);
    RemoveRing(links, lru, lo, lo);
    RingNoDup(links, RingOf(lru));
    Distinct(RingOf(lru), 0, lo + 1);
  }

  lemma PoolStepSums(mem: Handles, n: nat, lru: seq<Id>, lo: nat)
    requires lo < |lru| && lru[lo] in mem && lru[lo] < n && NoDup(lru)
    ensures var e := lru[lo];
            var mem' := mem[e := mem[e].(inPool := false)];
            && Sum(mem, Members(lru[lo..]), n) == Sum(mem', Members(lru[lo + 1..]), n) + mem[e].charge
            && Sum(mem', Members(lru), n) == Sum(mem, Members(lru), n)
            && Sum(mem', Members(lru[lo..]), n) == Sum(mem, Members(lru[lo..]), n)
  {
    var e, high := lru[lo], lru[lo..];
    assert NoDup(high);
    hide NoDup, Members, Sum;
    MembersRemove(high, 0);
    assert high[..0] + high[1..] == lru[lo + 1..];
    SumRemove(mem, Members(high), n, e);
    SumFlag(mem, Members(lru[lo + 1..]), n, e, false);
    SumFlag(mem, Members(high), n, e, false);
    SumFlag(mem, Members(lru), n, e, false);
  }

  /** A pool flag weighs nothing. */
  lemma SumFlag(mem: Handles, s: set<Id>, n: nat, e: Id, flag: bool)
    requires e in mem
    ensures Sum(mem[e := mem[e].(inPool := flag)], s, n) == Sum(mem, s, n)
  {
    SumSame(mem, mem[e := mem[e].(inPool := flag)], s, s, n);
  }

  /** What putting `e` at position `i` of the list does: at the end of the list as a high priority handle, or
      at the end of the low priority pool. */
  lemma InsertFacts(mem: Handles, n: nat, links: Links, lru: seq<Id>, lo: nat, i: nat, e: Id, high: bool)
    requires Ring(links, RingOf(lru)) && Pools(mem, n, lru, lo) && i == (if high then |lru| else lo)
    requires e in mem && 0 < e < n && e !in lru
    ensures HEAD in links && links[HEAD].prev == RingOf(lru)[|lru|] && RingOf(lru)[i] in links
    ensures links[RingOf(lru)[i]].next in links
    ensures var lru', lo' := lru[..i] + [e] + lru[i..], if high then lo else lo + 1;
            var mem' := mem[e := mem[e].(inPool := high)];
            && Ring(LinkedAfter(links, RingOf(lru)[i], e), RingOf(lru')) && Pools(mem', n, lru', lo') && lo' <= |lru'|
            && Members(lru') == Members(lru) + {e}
            && RingOf(lru')[lo'] == (if high then RingOf(lru)[lo] else e)
            && Sum(mem', Members(lru'), n) == Sum(mem, Members(lru), n) + mem[e].charge
            && Sum(mem', Members(lru'[lo'..]), n) ==
              Sum(mem, Members(lru[lo..]), n) + (if high then mem[e].charge else 0)
  {
    hide Ring;
    InsertRing(links, lru, i, e);
    InsertPools(mem, n, lru, lo, i, e, high);
    InsertSums(mem, n, lru, lo, i, e, high);
    MembersInsert(lru, i, e);
  }

  lemma RingInsert(lru: seq<Id>, i: nat, e: Id)
    requires i <= |lru|
    ensures RingOf(lru)[..i + 1] + [e] + RingOf(lru)[i + 1..] == RingOf(lru[..i] + [e] + lru[i..])
  {
  }

  lemma InsertRing(links: Links, lru: seq<Id>, i: nat, e: Id)
    requires Ring(links, RingOf(lru)) && i <= |lru| && e != HEAD && e !in lru
    ensures HEAD in links && links[HEAD].prev == RingOf(lru)[|lru|] && RingOf(lru)[i] in links
    ensures links[RingOf(lru)[i]].next in links
    ensures Ring(LinkedAfter(links, RingOf(lru)[i], e), RingOf(lru[..i] + [e] + lru[i..]))
  {
    var ring := RingOf(lru);
    assert e !in links;
    hide Ring, LinkedAfter;
    RingMember(links, ring, 0);
    LinkRing(links, ring, i, e);
    RingInsert(lru, i, e);
  }

  lemma InsertPools(mem: Handles, n: nat, lru: seq<Id>, lo: nat, i: nat, e: Id, high: bool)
    requires Pools(mem, n, lru, lo) && i == (if high then |lru| else lo) && e in mem && 0 < e < n && e !in lru
    ensures Pools(mem[e := mem[e].(inPool := high)], n, lru[..i] + [e] + lru[i..], if high then lo else lo + 1)
    ensures var lru' := lru[..i] + [e] + lru[i..];
            RingOf(lru')[if high then lo else lo + 1] == (if high then RingOf(lru)[lo] else e)
  {
    var lru' := lru[..i] + [e] + lru[i..];
    assert forall k | 0 <= k < |lru'| && k != i :: lru'[k] == lru[if k < i then k else k - 1] != e;
  }

  lemma InsertSums(mem: Handles, n: nat, lru: seq<Id>, lo: nat, i: nat, e: Id, high: bool)
    requires lo <= |lru| && i == (if high then |lru| else lo) && e in mem && 0 < e < n && e !in lru
    ensures var lru', lo' := lru[..i] + [e] + lru[i..], if high then lo else lo + 1;
            var mem' := mem[e := mem[e].(inPool := high)];
            && Sum(mem', Members(lru'), n) == Sum(mem, Members(lru), n) + mem[e].charge
            && Sum(mem', Members(lru'[lo'..]), n) ==
              Sum(mem, Members(lru[lo..]), n) + (if high then mem[e].charge else 0)
  {
    assert e !in Members(lru) && e !in Members(lru[lo..]);
    hide Members, Sum;
    var lru', lo' := lru[..i] + [e] + lru[i..], if high then lo else lo + 1;
    MembersInsert(lru, i, e);
    SumAdd(mem, Members(lru), n, e);
    SumFlag(mem, Members(lru'), n, e, high);
    SumFlag(mem, Members(lru'[lo'..]), n, e, high);
    if high {
      MembersInsert(lru[lo..], i - lo, e);
      assert lru'[lo'..] == lru[lo..][..i - lo] + [e] + lru[lo..][i - lo..];
      SumAdd(mem, Members(lru[lo..]), n, e);
    } else {
      assert lru'[lo'..] == lru[lo..];
    }
  }

  lemma MembersInsert(s: seq<Id>, i: nat, e: Id)
    requires i <= |s|
    ensures Members(s[..i] + [e] + s[i..]) == Members(s) + {e}
  {
    var s' := s[..i] + [e] + s[i..];
    assert s == s[..i] + s[i..];
    assert forall id :: id in s' <==> id in s || id == e;
  }

  /** What taking the handle at position `i` off the list does to the ring, the pools and the totals. */
  lemma RemoveFacts(mem: Handles, n: nat, links: Links, lru: seq<Id>, lo: nat, i: nat)
    requires Ring(links, RingOf(lru)) && Pools(mem, n, lru, lo) && i < |lru|
    ensures var e := lru[i];
            var lru', lo' := lru[..i] + lru[i + 1..], if i < lo then lo - 1 else lo;
            && e in links && links[e].next in links && links[e].prev in links && e in mem && lo <= |lru|
            && lo' <= |lru'|
            && Ring(Unlinked(links, e), RingOf(lru')) && Pools(mem, n, lru', lo')
            && lru' == Without(lru, e) && (e in lru[..lo] <==> i < lo) && Members(lru') == Members(lru) - {e}
            && e !in lru'
            && RingOf(lru')[lo'] == (if RingOf(lru)[lo] == e then links[e].prev else RingOf(lru)[lo])
            && Sum(mem, Members(lru), n) == Sum(mem, Members(lru'), n) + mem[e].charge
            && Sum(mem, Members(lru[lo..]), n) ==
              Sum(mem, Members(lru'[lo'..]), n) + (if mem[e].inPool then mem[e].charge else 0)
  {
    hide Ring, NoDup;
    RemoveRing(links, lru, lo, i);
    RemovePools(mem, n, lru, lo, i);
    RemoveSums(mem, n, lru, lo, i);
    MembersRemove(lru, i);
    assert lru[i] !in Members(lru[..i] + lru[i + 1..]);
  }

  lemma RemoveRing(links: Links, lru: seq<Id>, lo: nat, i: nat)
    requires Ring(links, RingOf(lru)) && i < |lru| && lo <= |lru|
    ensures var e := lru[i];
            var lru', lo' := lru[..i] + lru[i + 1..], if i < lo then lo - 1 else lo;
            && e in links && links[e].next in links && links[e].prev in links
            && Ring(Unlinked(links, e), RingOf(lru')) && NoDup(lru)
            && lru' == Without(lru, e) && (e in lru[..lo] <==> i < lo)
            && RingOf(lru')[lo'] == (if RingOf(lru)[lo] == e then links[e].prev else RingOf(lru)[lo])
  {
    hide Ring;
    var ring, e := RingOf(lru), lru[i];
    UnlinkRing(links, ring, i + 1);
    RingMember(links, ring, i + 1);
    RingNoDup(links, ring);
    assert NoDup(lru) by {
      forall a, b | 0 <= a < b < |lru| ensures lru[a] != lru[b] {
        Distinct(ring, a + 1, b + 1);
      }
    }
    WithoutAt(lru, i);
    Distinct(ring, lo, i + 1);
    var lru' := lru[..i] + lru[i + 1..];
    assert ring[..i + 1] + ring[i + 2..] == RingOf(lru');
    if i < lo {
      assert lru[..lo][i] == e;
    }
  }

  lemma RemovePools(mem: Handles, n: nat, lru: seq<Id>, lo: nat, i: nat)
    requires Pools(mem, n, lru, lo) && i < |lru|
    ensures Pools(mem, n, lru[..i] + lru[i + 1..], if i < lo then lo - 1 else lo)
  {
    var lru' := lru[..i] + lru[i + 1..];
    assert forall k | 0 <= k < |lru'| :: lru'[k] == lru[if k < i then k else k + 1];
  }

  lemma RemoveSums(mem: Handles, n: nat, lru: seq<Id>, lo: nat, i: nat)
    requires Pools(mem, n, lru, lo) && i < |lru| && NoDup(lru)
    ensures var e := lru[i];
            var lru', lo' := lru[..i] + lru[i + 1..], if i < lo then lo - 1 else lo;
            && Sum(mem, Members(lru), n) == Sum(mem, Members(lru'), n) + mem[e].charge
            && Sum(mem, Members(lru[lo..]), n) ==
              Sum(mem, Members(lru'[lo'..]), n) + (if mem[e].inPool then mem[e].charge else 0)
  {
    var e := lru[i];
    var lru', lo' := lru[..i] + lru[i + 1..], if i < lo then lo - 1 else lo;
    MembersRemove(lru, i);
    SumRemove(mem, Members(lru), n, e);
    if i < lo {
      assert lru'[lo'..] == lru[lo..];
    } else {
      var high := lru[lo..];
      assert lru'[lo'..] == high[..i - lo] + high[i - lo + 1..];
      assert NoDup(high);
      MembersRemove(high, i - lo);
      SumRemove(mem, Members(high), n, e);
    }
  }

  lemma MembersRemove(s: seq<Id>, i: nat)
    requires NoDup(s) && i < |s|
    ensures s[i] in Members(s) && Members(s[..i] + s[i + 1..]) == Members(s) - {s[i]}
  {
    var s' := s[..i] + s[i + 1..];
    forall id | id in s && id != s[i] ensures id in s' {
      var k :| 0 <= k < |s| && s[k] == id;
      assert s'[if k < i then k else k - 1] == id;
    }
    assert forall k | 0 <= k < |s'| :: s'[k] == s[if k < i then k else k + 1];
  }
}
