/** One shard of the CLOCK cache as a state machine. Every atomic operation on a handle's flags is one
    step; code that holds the mutex interleaves with lookups and releases that do not. */
module ClockCache {
  import opened Holding
  import opened Options

  type Thread = nat
  type Key = nat
  type HandleId = nat

  // ---- The packed flags word

  const IN_CACHE_BIT: nat := 1
  const USAGE_BIT: nat := 2
  const ONE_REF: nat := 4

  /** What the word holds: lowest bit in-cache, next bit usage, the rest the reference count. */
  datatype Flags = Flags(inCache: bool, used: bool, refs: nat)

  function Pack(f: Flags): nat {
    (if f.inCache then IN_CACHE_BIT else 0) + (if f.used then USAGE_BIT else 0) + ONE_REF * f.refs
  }

  function Unpack(w: nat): Flags {
    Flags(w % 2 == 1, (w / USAGE_BIT) % 2 == 1, w / ONE_REF)
  }

  /** The word with one bit cleared, and with it set. */
  function Cleared(w: nat, bit: nat): nat
    requires bit > 0
  {
    if (w / bit) % 2 == 1 then w - bit else w
  }

  function Marked(w: nat, bit: nat): nat
    requires bit > 0
  {
    if (w / bit) % 2 == 1 then w else w + bit
  }

  /** The word and its parts determine each other, and each atomic operation on the word is the
      operation on the parts that the steps below use. */
  lemma FlagsWord(f: Flags)
    ensures Unpack(Pack(f)) == f
    ensures Unpack(Pack(f) + ONE_REF) == f.(refs := f.refs + 1)
    ensures f.refs > 0 ==> Pack(f) >= ONE_REF && Unpack(Pack(f) - ONE_REF) == f.(refs := f.refs - 1)
    ensures Unpack(Cleared(Pack(f), IN_CACHE_BIT)) == f.(inCache := false)
    ensures Unpack(Cleared(Pack(f), USAGE_BIT)) == f.(used := false)
    ensures Unpack(Marked(Pack(f), USAGE_BIT)) == f.(used := true)
    ensures Pack(f) == IN_CACHE_BIT <==> f == Flags(true, false, 0)
    ensures Unpack(0) == Flags(false, false, 0)
    ensures Unpack(IN_CACHE_BIT) == Flags(true, false, 0) && Unpack(IN_CACHE_BIT + ONE_REF) == Flags(true, false, 1)
  {
    hide Pack, Unpack, Cleared, Marked;
    CountOfWord(f);
    UsageOfWord(f);
  }

  lemma CountOfWord(f: Flags)
    ensures Unpack(Pack(f)) == f
    ensures Unpack(Pack(f) + ONE_REF) == f.(refs := f.refs + 1)
    ensures f.refs > 0 ==> Pack(f) >= ONE_REF && Unpack(Pack(f) - ONE_REF) == f.(refs := f.refs - 1)
    ensures Pack(f) == IN_CACHE_BIT <==> f == Flags(true, false, 0)
    ensures Unpack(0) == Flags(false, false, 0)
    ensures Unpack(IN_CACHE_BIT) == Flags(true, false, 0) && Unpack(IN_CACHE_BIT + ONE_REF) == Flags(true, false, 1)
  {
  }

  lemma UsageOfWord(f: Flags)
    ensures Unpack(Cleared(Pack(f), IN_CACHE_BIT)) == f.(inCache := false)
    ensures Unpack(Cleared(Pack(f), USAGE_BIT)) == f.(used := false)
    ensures Unpack(Marked(Pack(f), USAGE_BIT)) == f.(used := true)
  {
    WordParts(f);
    WordParts(f.(inCache := false));
    WordParts(f.(used := false));
    WordParts(f.(used := true));
    assert Pack(f) / 1 == Pack(f);
    hide Unpack;
  }

  lemma WordParts(f: Flags)
    ensures Unpack(Pack(f)) == f && Pack(f) % 2 == (if f.inCache then 1 else 0)
    ensures (Pack(f) / 2) % 2 == if f.used then 1 else 0
  {
  }

  lemma WordFlags(w: nat)
    ensures Pack(Unpack(w)) == w
  {
  }

  // ---- State

  /** Where a handle is: holding an entry, in the recycle bin, or taken from it and being filled. */
  datatype Home = Occupied | Bin | Filling

  datatype Handle = Handle(key: Key, charge: nat, flags: Flags, home: Home)

  /** The variables that hold counted references. */
  datatype Place =
    | Local(thread: Thread)
    | Client(id: nat)

  datatype Pc =
    | Idle
    | Found(k: Key, h: HandleId)   // Lookup, after table_.find
    | Reffed(k: Key)               // Lookup, after Ref
    | Dropping                     // about to decrement in Unref
    | MustRecycle                  // brought the flags to zero: waiting for the mutex
    | RecycleLocked
    | InOp                         // holds the mutex, in Insert, Erase, SetCapacity or EraseUnRefEntries

  /** What the code that holds the mutex goes on with. */
  datatype Next = ToReady | ToLink(h: HandleId) | ToSweep(i: nat)

  datatype Stage =
    | Ready
    | Evicted(h: HandleId)               // TryEvict cleared the flags, the key is still in the table
    | Recycle(next: Next)                // RecycleHandle is due
    | Unset(h: HandleId, next: Next)     // UnsetInCache is due
    | Picked(h: HandleId, k: Key, c: nat, hold: bool)  // Insert took a handle
    | Filled(h: HandleId, hold: bool)
    | Stored(h: HandleId)                // flags stored, key not yet in the table
    | Link(h: HandleId)                  // the old entry for the key is gone
    | Sweep(i: nat)                      // EraseUnRefEntries, table cleared

  datatype State = State(
    handles: seq<Handle>,
    at: map<Place, HandleId>,
    clientKey: map<nat, Key>,      // the key that each client reference was looked up or inserted for
    duty: map<Thread, HandleId>,   // the handle that a thread must recycle
    pc: map<Thread, Pc>,
    table: map<Key, HandleId>,
    usage: int,
    mutex: Option<Thread>,
    stage: Stage)

  datatype Step =
    | Find(t: Thread, k: Key)
    | Ref(t: Thread)
    | CheckKey(t: Thread, id: nat)
    | BeginRelease(t: Thread, id: nat)
    | Decrement(t: Thread)
    | LockRecycle(t: Thread)
    | UnlockRecycle(t: Thread)
    | RecycleHandle(t: Thread)
    | BeginOp(t: Thread)
    | EndOp(t: Thread, id: nat)
    | TryEvict(t: Thread, h: HandleId)
    | ClearUsage(t: Thread, h: HandleId)
    | RefHeld(t: Thread, id: nat, other: nat)
    | EraseEvicted
    | EraseKey(k: Key)
    | UnsetInCache(t: Thread)
    | Pick(t: Thread, h: HandleId, k: Key, c: nat, hold: bool)
    | Fill
    | Store(t: Thread)
    | EraseExisting
    | LinkKey
    | ClearTable
    | SweepNext

  function StageOf(n: Next): Stage {
    match n
    case ToReady => Ready
    case ToLink(h) => Link(h)
    case ToSweep(i) => Sweep(i)
  }

  predicate At(s: State, t: Thread, pc: Pc) {
    t in s.pc && s.pc[t] == pc
  }

  predicate Owns(s: State, t: Thread) {
    At(s, t, InOp) && s.mutex == Some(t)
  }

  function SetFlags(s: State, h: HandleId, f: Flags): State
    requires h < |s.handles|
  {
    s.(handles := s.handles[h := s.handles[h].(flags := f)])
  }

  /** The thread's control state lets it take this step now. */
  predicate Enabled(s: State, step: Step) {
    match step
    case Find(t, k) => At(s, t, Idle)
    case Ref(t) => t in s.pc && s.pc[t].Found?
    case CheckKey(t, id) => t in s.pc && s.pc[t].Reffed? && Client(id) !in s.at
    case BeginRelease(t, id) => At(s, t, Idle) && Client(id) in s.at
    case Decrement(t) => At(s, t, Dropping)
    case LockRecycle(t) => At(s, t, MustRecycle) && s.mutex.None?
    case UnlockRecycle(t) => At(s, t, RecycleLocked) && t !in s.duty
    case RecycleHandle(t) => t in s.duty && (At(s, t, RecycleLocked) || (Owns(s, t) && s.stage.Recycle?))
    case BeginOp(t) => At(s, t, Idle) && s.mutex.None?
    case EndOp(t, id) => Owns(s, t) && s.stage.Ready? && Client(id) !in s.at
    case TryEvict(t, h) => Owns(s, t) && s.stage.Ready? && h < |s.handles|
    case ClearUsage(t, h) => Owns(s, t) && s.stage.Ready? && h < |s.handles|
    case RefHeld(t, id, other) => At(s, t, Idle) && Client(id) in s.at && Client(other) !in s.at
    case EraseEvicted => s.stage.Evicted?
    case EraseKey(k) => s.stage.Ready? && s.mutex.Some? && At(s, s.mutex.value, InOp) && k in s.table
    case UnsetInCache(t) => Owns(s, t) && s.stage.Unset?
    case Pick(t, h, k, c, hold) =>
      && Owns(s, t) && s.stage.Ready? && Local(t) !in s.at
      && (h == |s.handles| || (h < |s.handles| && s.handles[h].home.Bin?))
    case Fill => s.stage.Picked?
    case Store(t) => Owns(s, t) && s.stage.Filled?
    case EraseExisting => s.stage.Stored?
    case LinkKey => s.stage.Link?
    case ClearTable => s.stage.Ready? && s.mutex.Some? && At(s, s.mutex.value, InOp)
    case SweepNext => s.stage.Sweep?
  }

  /** What the code asserts, and that no reference or handle is used out of turn. */
  predicate Safe(s: State, step: Step)
    requires Enabled(s, step)
  {
    match step
    case Ref(t) => s.pc[t].h < |s.handles|
    case CheckKey(t, id) => Local(t) in s.at && s.at[Local(t)] < |s.handles|
    case BeginRelease(t, id) =>
      id in s.clientKey && s.at[Client(id)] < |s.handles| && s.handles[s.at[Client(id)]].flags.refs > 0
    case RefHeld(t, id, other) =>
      id in s.clientKey && s.at[Client(id)] < |s.handles| && s.handles[s.at[Client(id)]].flags.refs > 0
    case Decrement(t) =>
      Local(t) in s.at && s.at[Local(t)] < |s.handles| && s.handles[s.at[Local(t)]].flags.refs > 0
    case RecycleHandle(t) =>
      // neither in cache nor referenced, and not in the bin already
      s.duty[t] < |s.handles| && Idling(s.handles[s.duty[t]]) && s.handles[s.duty[t]].home.Occupied?
    case EndOp(t, id) => Local(t) in s.at ==> s.at[Local(t)] < |s.handles|
    case EraseEvicted =>
      // the key of the evicted handle is in the table, and is this handle's
      s.stage.h < |s.handles| && s.handles[s.stage.h].key in s.table && s.table[s.handles[s.stage.h].key] == s.stage.h
    case EraseKey(k) => s.table[k] < |s.handles|
    case UnsetInCache(t) => s.stage.h < |s.handles|
    case Fill => s.stage.h < |s.handles| && Idling(s.handles[s.stage.h]) && s.handles[s.stage.h].home.Filling?
    case Store(t) => s.stage.h < |s.handles| && Idling(s.handles[s.stage.h]) && Local(t) !in s.at
    case EraseExisting =>
      && s.stage.h < |s.handles|
      && (s.handles[s.stage.h].key in s.table ==> s.table[s.handles[s.stage.h].key] < |s.handles|)
    case LinkKey => s.stage.h < |s.handles| && s.handles[s.stage.h].key !in s.table
    case _ => true
  }

  /** The flags say that the handle is neither in the cache nor referenced. */
  predicate Idling(x: Handle) {
    !x.flags.inCache && x.flags.refs == 0
  }

  // ---- The effect of each step

  function DoFind(s: State, t: Thread, k: Key): State {
    if k in s.table then s.(pc := s.pc[t := Found(k, s.table[k])]) else s
  }

  /** The compare-and-swap loop of Ref: it ends by adding a reference or by seeing the in-cache bit clear. */
  function DoRef(s: State, t: Thread): State
    requires t in s.pc && s.pc[t].Found? && s.pc[t].h < |s.handles|
  {
    var h := s.pc[t].h;
    var f := s.handles[h].flags;
    if f.inCache then
      SetFlags(s, h, f.(refs := f.refs + 1)).(at := s.at[Local(t) := h], pc := s.pc[t := Reffed(s.pc[t].k)])
    else
      s.(pc := s.pc[t := Idle])
  }

  /** Lookup checks the key again; on a match the reference goes to the client. */
  function DoCheckKey(s: State, t: Thread, id: nat): State
    requires t in s.pc && s.pc[t].Reffed? && Local(t) in s.at && s.at[Local(t)] < |s.handles|
  {
    if s.handles[s.at[Local(t)]].key == s.pc[t].k then
      s.(at := Move(s.at, Local(t), Client(id)), clientKey := s.clientKey[id := s.pc[t].k], pc := s.pc[t := Idle])
    else
      s.(pc := s.pc[t := Dropping])
  }

  /** Release sets the usage bit first. */
  function DoBeginRelease(s: State, t: Thread, id: nat): State
    requires Client(id) in s.at && s.at[Client(id)] < |s.handles|
  {
    var h := s.at[Client(id)];
    SetFlags(s, h, s.handles[h].flags.(used := true)).(
      at := Move(s.at, Client(id), Local(t)), clientKey := s.clientKey - {id}, pc := s.pc[t := Dropping])
  }

  /** The decrement in Unref; whoever brings the flags to zero must recycle. */
  function DoDecrement(s: State, t: Thread): State
    requires Local(t) in s.at && s.at[Local(t)] < |s.handles| && s.handles[s.at[Local(t)]].flags.refs > 0
  {
    var h := s.at[Local(t)];
    var f := s.handles[h].flags;
    var last := f.refs == 1 && !f.inCache;
    SetFlags(s, h, f.(refs := f.refs - 1)).(
      at := s.at - {Local(t)}, duty := if last then s.duty[t := h] else s.duty,
      pc := s.pc[t := if last then MustRecycle else Idle])
  }

  /** RecycleHandle: back into the bin, its charge returned. */
  function DoRecycleHandle(s: State, t: Thread): State
    requires t in s.duty && s.duty[t] < |s.handles|
  {
    var h := s.duty[t];
    s.(handles := s.handles[h := s.handles[h].(home := Bin)], usage := s.usage - s.handles[h].charge,
       duty := s.duty - {t}, stage := if s.stage.Recycle? && s.mutex == Some(t) then StageOf(s.stage.next) else s.stage)
  }

  function DoEndOp(s: State, t: Thread, id: nat): State
    requires Local(t) in s.at ==> s.at[Local(t)] < |s.handles|
  {
    var s1 := if Local(t) in s.at then
                s.(at := Move(s.at, Local(t), Client(id)),
                   clientKey := s.clientKey[id := s.handles[s.at[Local(t)]].key])
              else s;
    s1.(mutex := None, pc := s.pc[t := Idle])
  }

  /** TryEvict: one compare-and-swap from "in cache, unused, unreferenced" to zero. */
  function DoTryEvict(s: State, t: Thread, h: HandleId): State
    requires h < |s.handles|
  {
    if s.handles[h].flags == Flags(true, false, 0) then
      SetFlags(s, h, Flags(false, false, 0)).(duty := s.duty[t := h], stage := Evicted(h))
    else s
  }

  /** After a failed compare-and-swap TryEvict clears the usage bit; here that may happen at any time. */
  function DoClearUsage(s: State, h: HandleId): State
    requires h < |s.handles|
  {
    SetFlags(s, h, s.handles[h].flags.(used := false))
  }

  /** Ref by a client that holds a reference already; it fails once the entry has left the cache. */
  function DoRefHeld(s: State, id: nat, other: nat): State
    requires Client(id) in s.at && s.at[Client(id)] < |s.handles| && id in s.clientKey
  {
    var h := s.at[Client(id)];
    var f := s.handles[h].flags;
    if f.inCache then
      SetFlags(s, h, f.(refs := f.refs + 1)).(
        at := s.at[Client(other) := h], clientKey := s.clientKey[other := s.clientKey[id]])
    else s
  }

  function DoEraseEvicted(s: State): State
    requires s.stage.Evicted? && s.stage.h < |s.handles|
  {
    s.(table := s.table - {s.handles[s.stage.h].key}, stage := Recycle(ToReady))
  }

  function DoEraseKey(s: State, k: Key): State
    requires k in s.table
  {
    s.(table := s.table - {k}, stage := Unset(s.table[k], ToReady))
  }

  /** UnsetInCache: clears the bit; recycles if that left nothing. */
  function DoUnsetInCache(s: State, t: Thread): State
    requires s.stage.Unset? && s.stage.h < |s.handles|
  {
    var h := s.stage.h;
    var f := s.handles[h].flags;
    var s1 := SetFlags(s, h, f.(inCache := false));
    if f.inCache && f.refs == 0 then s1.(duty := s.duty[t := h], stage := Recycle(s.stage.next))
    else s1.(stage := StageOf(s.stage.next))
  }

  /** Insert takes a handle from the bin, or appends a new one to the list. */
  function DoPick(s: State, h: HandleId, k: Key, c: nat, hold: bool): State
    requires h <= |s.handles|
  {
    var handles := if h == |s.handles| then s.handles + [Handle(k, c, Flags(false, false, 0), Filling)]
                   else s.handles[h := s.handles[h].(home := Filling)];
    s.(handles := handles, stage := Picked(h, k, c, hold))
  }

  function DoFill(s: State): State
    requires s.stage.Picked? && s.stage.h < |s.handles|
  {
    var h := s.stage.h;
    s.(handles := s.handles[h := s.handles[h].(key := s.stage.k, charge := s.stage.c)],
       stage := Filled(h, s.stage.hold))
  }

  /** The store of the flags makes the entry reachable. */
  function DoStore(s: State, t: Thread): State
    requires s.stage.Filled? && s.stage.h < |s.handles|
  {
    var h := s.stage.h;
    var f := Flags(true, false, if s.stage.hold then 1 else 0);
    s.(handles := s.handles[h := s.handles[h].(flags := f, home := Occupied)],
       at := if s.stage.hold then s.at[Local(t) := h] else s.at, stage := Stored(h))
  }

  function DoEraseExisting(s: State): State
    requires s.stage.Stored? && s.stage.h < |s.handles|
  {
    var k := s.handles[s.stage.h].key;
    if k in s.table then s.(table := s.table - {k}, stage := Unset(s.table[k], ToLink(s.stage.h)))
    else s.(stage := Link(s.stage.h))
  }

  function DoLinkKey(s: State): State
    requires s.stage.Link? && s.stage.h < |s.handles|
  {
    var h := s.stage.h;
    s.(table := s.table[s.handles[h].key := h], usage := s.usage + s.handles[h].charge, stage := Ready)
  }

  function DoSweepNext(s: State): State
    requires s.stage.Sweep?
  {
    if s.stage.i < |s.handles| then s.(stage := Unset(s.stage.i, ToSweep(s.stage.i + 1)))
    else s.(stage := Ready)
  }

  function Apply(s: State, step: Step): State
    requires Enabled(s, step) && Safe(s, step)
  {
    match step
    case Find(t, k) => DoFind(s, t, k)
    case Ref(t) => DoRef(s, t)
    case CheckKey(t, id) => DoCheckKey(s, t, id)
    case BeginRelease(t, id) => DoBeginRelease(s, t, id)
    case Decrement(t) => DoDecrement(s, t)
    case LockRecycle(t) => s.(mutex := Some(t), pc := s.pc[t := RecycleLocked])
    case UnlockRecycle(t) => s.(mutex := None, pc := s.pc[t := Idle])
    case RecycleHandle(t) => DoRecycleHandle(s, t)
    case BeginOp(t) => s.(mutex := Some(t), pc := s.pc[t := InOp])
    case EndOp(t, id) => DoEndOp(s, t, id)
    case TryEvict(t, h) => DoTryEvict(s, t, h)
    case ClearUsage(t, h) => DoClearUsage(s, h)
    case RefHeld(t, id, other) => DoRefHeld(s, id, other)
    case EraseEvicted => DoEraseEvicted(s)
    case EraseKey(k) => DoEraseKey(s, k)
    case UnsetInCache(t) => DoUnsetInCache(s, t)
    case Pick(t, h, k, c, hold) => DoPick(s, h, k, c, hold)
    case Fill => DoFill(s)
    case Store(t) => DoStore(s, t)
    case EraseExisting => DoEraseExisting(s)
    case LinkKey => DoLinkKey(s)
    case ClearTable => s.(table := map[], stage := Sweep(0))
    case SweepNext => DoSweepNext(s)
  }

  /** An empty shard; any thread may start at any time. */
  ghost predicate Init(s: State) {
    && s.handles == [] && s.at == map[] && s.clientKey == map[] && s.duty == map[] && s.table == map[]
    && s.usage == 0 && s.mutex.None? && s.stage.Ready? && forall t | t in s.pc :: s.pc[t].Idle?
  }

  ghost predicate Steps(s: State, s': State) {
    exists step :: Enabled(s, step) && Safe(s, step) && s' == Apply(s, step)
  }

  ghost predicate IsRun(run: seq<State>) {
    && run != [] && Init(run[0])
    && forall i | 0 <= i < |run| - 1 :: Steps(run[i], run[i + 1])
  }
}
