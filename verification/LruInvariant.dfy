/** What the live handles of an LRU shard, its table and its totals have to do with each other. */
module LruInvariant {
  import opened LruTable
  import opened LruList

  /** Only pool flags differ. */
  ghost predicate SameButPool(mem: Handles, mem': Handles) {
    mem'.Keys == mem.Keys && forall id | id in mem :: mem'[id] == mem[id].(inPool := mem'[id].inPool)
  }

  lemma SameAtAll(mem: Handles)
    ensures SameButPool(mem, mem)
  {
  }

  lemma SameFlag(mem0: Handles, mem: Handles, e: Id, flag: bool)
    requires SameButPool(mem0, mem) && e in mem
    ensures SameButPool(mem0, mem[e := mem[e].(inPool := flag)])
  {
  }

  lemma SameTwice(mem0: Handles, mem: Handles, mem': Handles)
    requires SameButPool(mem0, mem) && SameButPool(mem, mem')
    ensures SameButPool(mem0, mem')
  {
  }

  // ---- Live and freed handles

  /** Every handle made so far is live, with a reference, or has been freed once; the usage is the charge of the live
      ones. */
  ghost predicate MemOk(mem: Handles, n: nat, usage: nat, freed: seq<Id>) {
    && n > 0
    && (forall id | id in mem :: 0 < id < n && mem[id].refs >= 1)
    && usage == Sum(mem, mem.Keys, n)
    && NoDup(freed)
    && (forall id: nat | 0 < id < n :: id in mem <==> id !in freed)
    && (forall id | id in freed :: 0 < id < n)
  }

  lemma MemSet(mem: Handles, n: nat, usage: nat, freed: seq<Id>, e: Id, h: Handle)
    requires MemOk(mem, n, usage, freed) && e in mem && h.charge == mem[e].charge && h.refs >= 1
    ensures MemOk(mem[e := h], n, usage, freed)
  {
    var mem' := mem[e := h];
    assert mem'.Keys == mem.Keys;
    SumSame(mem, mem', mem.Keys, mem'.Keys, n);
  }

  lemma MemPool(mem: Handles, mem': Handles, n: nat, usage: nat, freed: seq<Id>)
    requires MemOk(mem, n, usage, freed) && SameButPool(mem, mem')
    ensures MemOk(mem', n, usage, freed)
  {
    SumSame(mem, mem', mem.Keys, mem'.Keys, n);
  }

  lemma MemDrop(mem: Handles, n: nat, usage: nat, freed: seq<Id>, e: Id)
    requires MemOk(mem, n, usage, freed) && e in mem
    ensures usage >= mem[e].charge && MemOk(mem - {e}, n, usage - mem[e].charge, freed + [e])
  {
    var mem' := mem - {e};
    assert mem'.Keys == mem.Keys - {e};
    SumRemove(mem, mem.Keys, n, e);
    SumSame(mem, mem', mem.Keys - {e}, mem'.Keys, n);
    hide Sum;
  }

  lemma MemAdd(mem: Handles, n: nat, usage: nat, freed: seq<Id>, h: Handle)
    requires MemOk(mem, n, usage, freed) && h.refs >= 1
    ensures MemOk(mem[n := h], n + 1, usage + h.charge, freed)
  {
    var mem' := mem[n := h];
    SumSame(mem, mem', mem.Keys, mem'.Keys, n);
  }

  /** A handle that is made and freed at once. */
  lemma MemPass(mem: Handles, n: nat, usage: nat, freed: seq<Id>)
    requires MemOk(mem, n, usage, freed)
    ensures MemOk(mem, n + 1, usage, freed + [n])
  {
    assert forall i | 0 <= i < |freed| :: freed[i] in freed;
  }

  // ---- The table

  /** The table maps the keys of the handles marked as in the cache to them. */
  ghost predicate TableAgrees(mem: Handles, m: map<HashedKey, Id>, ids: set<Id>) {
    && (forall id | id in mem && mem[id].inCache :: mem[id].key in m && m[mem[id].key] == id && id in ids)
    && (forall k | k in m :: m[k] in mem && mem[m[k]].inCache && mem[m[k]].key == k)
    && (forall id | id in ids :: id in mem && mem[id].inCache)
  }

  lemma TableSet(mem: Handles, m: map<HashedKey, Id>, ids: set<Id>, e: Id, h: Handle)
    requires TableAgrees(mem, m, ids) && e in mem && h.key == mem[e].key && h.inCache == mem[e].inCache
    ensures TableAgrees(mem[e := h], m, ids)
  {
  }

  lemma TablePool(mem: Handles, mem': Handles, m: map<HashedKey, Id>, ids: set<Id>)
    requires TableAgrees(mem, m, ids) && SameButPool(mem, mem')
    ensures TableAgrees(mem', m, ids)
  {
  }

  /** A handle leaves the table. */
  lemma TableLeave(mem: Handles, m: map<HashedKey, Id>, ids: set<Id>, e: Id, h: Handle)
    requires TableAgrees(mem, m, ids) && e in mem && mem[e].inCache && !h.inCache
    ensures mem[e].key in m && m[mem[e].key] == e && TableAgrees(mem[e := h], m - {mem[e].key}, ids - {e})
  {
  }

  lemma TableDrop(mem: Handles, m: map<HashedKey, Id>, ids: set<Id>, e: Id)
    requires TableAgrees(mem, m, ids) && e in mem
    ensures mem[e].inCache ==>
              mem[e].key in m && m[mem[e].key] == e && TableAgrees(mem - {e}, m - {mem[e].key}, ids - {e})
    ensures !mem[e].inCache ==> TableAgrees(mem - {e}, m, ids)
  {
  }

  /** A new handle enters the table, in the place of the one that had its key. */
  lemma TablePut(mem: Handles, m: map<HashedKey, Id>, ids: set<Id>, n: Id, h: Handle)
    requires TableAgrees(mem, m, ids) && n !in mem && h.inCache
    ensures h.key !in m ==> TableAgrees(mem[n := h], m[h.key := n], ids + {n})
    ensures h.key in m ==>
              var e := m[h.key];
              e in mem && TableAgrees(mem[e := mem[e].(inCache := false)][n := h], m[h.key := n], ids - {e} + {n})
  {
  }

  // ---- The list

  /** Handles in the table that nobody holds. */
  ghost function EvictableIds(mem: Handles): set<Id> {
    set id | id in mem && mem[id].Evictable()
  }

  lemma EvictableSet(mem: Handles, e: Id, h: Handle)
    ensures EvictableIds(mem[e := h]) == if h.Evictable() then EvictableIds(mem) + {e} else EvictableIds(mem) - {e}
  {
    var a, b := EvictableIds(mem[e := h]), if h.Evictable() then EvictableIds(mem) + {e} else EvictableIds(mem) - {e};
    assert forall id :: id in a <==> id in b;
  }

  lemma EvictableDrop(mem: Handles, e: Id)
    ensures EvictableIds(mem - {e}) == EvictableIds(mem) - {e}
  {
    var a, b := EvictableIds(mem - {e}), EvictableIds(mem) - {e};
    assert forall id :: id in a <==> id in b;
  }

  lemma EvictablePool(mem: Handles, mem': Handles)
    requires SameButPool(mem, mem')
    ensures EvictableIds(mem') == EvictableIds(mem)
  {
    assert forall id :: id in mem <==> id in mem.Keys;
    assert forall id :: id in mem' <==> id in mem'.Keys;
    assert forall id :: id in EvictableIds(mem') <==> id in EvictableIds(mem);
  }

  // ---- Retiring a handle

  /** A handle after it loses the reference of the table. */
  function Retired(mem: Handles, o: Id): Handles
    requires o in mem && mem[o].refs >= 1
  {
    if mem[o].refs == 1 then mem - {o} else mem[o := mem[o].(inCache := false, refs := mem[o].refs - 1)]
  }

  lemma RetiredOther(mem: Handles, o: Id, e: Id)
    requires o in mem && mem[o].refs >= 1 && e in mem && e != o
    ensures e in Retired(mem, o) && Retired(mem, o)[e] == mem[e]
  {
  }

  lemma InTable(mem: Handles, m: map<HashedKey, Id>, ids: set<Id>, k: HashedKey)
    requires TableAgrees(mem, m, ids) && k in m
    ensures m[k] in mem && m[k] in ids && mem[m[k]].inCache && mem[m[k]].key == k
  {
  }

  lemma TableRetire(mem: Handles, m: map<HashedKey, Id>, ids: set<Id>, o: Id)
    requires TableAgrees(mem, m, ids) && o in mem && mem[o].inCache && mem[o].refs >= 1
    ensures TableAgrees(Retired(mem, o), m - {mem[o].key}, ids - {o})
  {
    hide TableAgrees;
    TableDrop(mem, m, ids, o);
    TableLeave(mem, m, ids, o, mem[o].(inCache := false, refs := mem[o].refs - 1));
  }

  lemma EvictableRetire(mem: Handles, o: Id)
    requires o in mem && mem[o].refs >= 1
    ensures EvictableIds(Retired(mem, o)) == EvictableIds(mem) - {o}
  {
    hide EvictableIds;
    EvictableDrop(mem, o);
    EvictableSet(mem, o, mem[o].(inCache := false, refs := mem[o].refs - 1));
  }

  lemma NotInTable(mem: Handles, m: map<HashedKey, Id>, ids: set<Id>, e: Id)
    requires TableAgrees(mem, m, ids) && e !in mem
    ensures e !in ids
  {
  }

  /** A new handle enters the table, and the one that had its key is retired. */
  lemma EnterTable(mem: Handles, m: map<HashedKey, Id>, ids: set<Id>, e: Id, h: Handle)
    requires TableAgrees(mem, m, ids) && e !in mem && h.inCache
    ensures h.key !in m ==> TableAgrees(mem[e := h], m[h.key := e], ids - {} + {e})
    ensures h.key in m && m[h.key] in mem && mem[m[h.key]].refs >= 1 ==>
              TableAgrees(Retired(mem[e := h], m[h.key]), m[h.key := e], ids - {m[h.key]} + {e})
  {
    TablePut(mem, m, ids, e, h);
    assert ids - {} + {e} == ids + {e};
    if h.key in m && m[h.key] in mem && mem[m[h.key]].refs >= 1 {
      var o := m[h.key];
      var mem1 := mem[o := mem[o].(inCache := false)][e := h];
      hide TableAgrees;
      if mem[o].refs == 1 {
        TableDrop(mem1, m[h.key := e], ids - {o} + {e}, o);
        assert mem1 - {o} == Retired(mem[e := h], o);
      } else {
        TableSet(mem1, m[h.key := e], ids - {o} + {e}, o, mem1[o].(refs := mem[o].refs - 1));
        assert mem1[o := mem1[o].(refs := mem[o].refs - 1)] == Retired(mem[e := h], o);
      }
    }
  }
}
