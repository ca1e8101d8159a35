/** The invariant of the CLOCK cache shard. */
module ClockInvariant {
  import opened Holding
  import opened Options
  import opened ClockCache

  // ---- References

  /** Each count is the number of references that are held. */
  ghost predicate Counted(handles: seq<Handle>, at: map<Place, HandleId>) {
    && (forall p | p in at :: at[p] < |handles|)
    && (forall h | 0 <= h < |handles| :: handles[h].flags.refs == |Holders(at, h)|)
  }

  lemma CountedRef(handles: seq<Handle>, at: map<Place, HandleId>, p: Place, h: HandleId, x: Handle)
    requires Counted(handles, at) && p !in at && h < |handles| && x.flags.refs == handles[h].flags.refs + 1
    ensures Counted(handles[h := x], at[p := h])
  {
    var handles' := handles[h := x];
    forall g | 0 <= g < |handles'| ensures handles'[g].flags.refs == |Holders(at[p := h], g)| {
      HoldersAdd(at, p, h, g);
    }
  }

  lemma CountedUnref(handles: seq<Handle>, at: map<Place, HandleId>, p: Place, x: Handle)
    requires Counted(handles, at) && p in at && x.flags.refs == handles[at[p]].flags.refs - 1
    ensures Counted(handles[at[p] := x], at - {p})
  {
    var handles' := handles[at[p] := x];
    forall g | 0 <= g < |handles'| ensures handles'[g].flags.refs == |Holders(at - {p}, g)| {
      HoldersRemove(at, p, g);
    }
  }

  lemma CountedMove(handles: seq<Handle>, at: map<Place, HandleId>, from: Place, to: Place)
    requires Counted(handles, at) && from in at && to !in at
    ensures Counted(handles, Move(at, from, to))
  {
    forall g | 0 <= g < |handles| ensures handles[g].flags.refs == |Holders(Move(at, from, to), g)| {
      HoldersMove(at, from, to, g);
    }
  }

  lemma CountedUpdate(handles: seq<Handle>, at: map<Place, HandleId>, h: HandleId, x: Handle)
    requires Counted(handles, at) && h < |handles| && x.flags.refs == handles[h].flags.refs
    ensures Counted(handles[h := x], at)
  {
  }

  lemma CountedAppend(handles: seq<Handle>, at: map<Place, HandleId>, x: Handle)
    requires Counted(handles, at) && x.flags.refs == 0
    ensures Counted(handles + [x], at)
  {
    assert Holders(at, |handles|) == {};
  }

  lemma HeldCount(handles: seq<Handle>, at: map<Place, HandleId>, p: Place)
    requires Counted(handles, at) && p in at
    ensures at[p] < |handles| && handles[at[p]].flags.refs > 0
  {
    HoldersSome(at, p);
  }

  // ---- Recycling

  /** A handle that is neither in the cache nor referenced is in the bin, being filled, or exactly one
      thread is about to recycle it. */
  ghost predicate Doomed(handles: seq<Handle>, duty: map<Thread, HandleId>) {
    && (forall t | t in duty :: duty[t] < |handles| && Idling(handles[duty[t]]) && handles[duty[t]].home.Occupied?)
    && (forall t, u | t in duty && u in duty && duty[t] == duty[u] :: t == u)
    && (forall h | 0 <= h < |handles| && Idling(handles[h]) && handles[h].home.Occupied? :: HasDuty(duty, h))
    && (forall h | 0 <= h < |handles| && !handles[h].home.Occupied? :: Idling(handles[h]))
  }

  ghost predicate HasDuty(duty: map<Thread, HandleId>, h: HandleId) {
    exists t | t in duty :: duty[t] == h
  }

  /** Changing a live handle into a live handle. */
  lemma DoomedLive(handles: seq<Handle>, duty: map<Thread, HandleId>, h: HandleId, x: Handle)
    requires Doomed(handles, duty) && h < |handles|
    requires Idling(x) == Idling(handles[h]) && x.home == handles[h].home
    ensures Doomed(handles[h := x], duty)
  {
  }

  /** The step that leaves a handle with neither bit nor reference takes on the duty. */
  lemma DoomedTake(handles: seq<Handle>, duty: map<Thread, HandleId>, t: Thread, h: HandleId, x: Handle)
    requires Doomed(handles, duty) && h < |handles| && t !in duty
    requires !Idling(handles[h]) && Idling(x) && x.home.Occupied?
    ensures Doomed(handles[h := x], duty[t := h])
  {
    var handles', duty' := handles[h := x], duty[t := h];
    forall g | 0 <= g < |handles'| && Idling(handles'[g]) && handles'[g].home.Occupied? ensures HasDuty(duty', g) {
      if g == h {
        assert duty'[t] == h;
      } else {
        assert HasDuty(duty, g);
        var u :| u in duty && duty[u] == g;
        assert duty'[u] == g;
      }
    }
  }

  /** Recycling discharges the duty and puts the handle in the bin, where it was not. */
  lemma DoomedRecycle(handles: seq<Handle>, duty: map<Thread, HandleId>, t: Thread)
    requires Doomed(handles, duty) && t in duty
    ensures handles[duty[t]].home.Occupied?
    ensures Doomed(handles[duty[t] := handles[duty[t]].(home := Bin)], duty - {t})
  {
    var h := duty[t];
    var handles', duty' := handles[h := handles[h].(home := Bin)], duty - {t};
    forall g | 0 <= g < |handles'| && Idling(handles'[g]) && handles'[g].home.Occupied? ensures HasDuty(duty', g) {
      assert HasDuty(duty, g);
      var u :| u in duty && duty[u] == g;
      assert duty'[u] == g;
    }
  }

  /** A handle out of use changes hands: from the bin to being filled, or filled with a new entry. */
  lemma DoomedUnused(handles: seq<Handle>, duty: map<Thread, HandleId>, h: HandleId, x: Handle)
    requires Doomed(handles, duty) && h < |handles| && !handles[h].home.Occupied?
    requires Idling(x) <==> !x.home.Occupied?
    ensures Doomed(handles[h := x], duty)
  {
  }

  lemma DoomedAppend(handles: seq<Handle>, duty: map<Thread, HandleId>, x: Handle)
    requires Doomed(handles, duty) && Idling(x) && !x.home.Occupied?
    ensures Doomed(handles + [x], duty)
  {
  }

  // ---- Client references

  /** A client's handle still holds the entry the client asked for. */
  ghost predicate ClientsOk(handles: seq<Handle>, at: map<Place, HandleId>, clientKey: map<nat, Key>) {
    forall id | Client(id) in at ::
      at[Client(id)] < |handles| && id in clientKey && handles[at[Client(id)]].key == clientKey[id]
  }

  /** Only a handle that nobody refers to gets a new key. */
  lemma ClientsFill(handles: seq<Handle>, at: map<Place, HandleId>, clientKey: map<nat, Key>, h: HandleId, x: Handle)
    requires ClientsOk(handles, at, clientKey) && Counted(handles, at) && h < |handles|
    requires handles[h].flags.refs == 0 || x.key == handles[h].key
    ensures ClientsOk(handles[h := x], at, clientKey)
  {
    forall id | Client(id) in at ensures handles[h := x][at[Client(id)]].key == clientKey[id] {
      HeldCount(handles, at, Client(id));
    }
  }

  // ---- The table

  /** A handle of the operation in progress that has the bit but is not (yet, or any more) in the table. */
  predicate NextBit(n: Next, h: HandleId) {
    match n
    case ToReady => false
    case ToLink(g) => g == h
    case ToSweep(i) => h >= i
  }

  predicate BitOnly(stage: Stage, h: HandleId) {
    match stage
    case Stored(g) => g == h
    case Link(g) => g == h
    case Unset(g, n) => g == h || NextBit(n, h)
    case Recycle(n) => NextBit(n, h)
    case Sweep(i) => h >= i
    case _ => false
  }

  /** The handle being inserted, from the store of its flags on. */
  function Inserting(stage: Stage): Option<HandleId> {
    match stage
    case Stored(h) => Some(h)
    case Link(h) => Some(h)
    case Unset(_, ToLink(h)) => Some(h)
    case Recycle(ToLink(h)) => Some(h)
    case _ => None
  }

  /** `table_` maps exactly the handles with the in-cache bit, but for the operation in progress. */
  ghost predicate TableOk(handles: seq<Handle>, table: map<Key, HandleId>, stage: Stage) {
    && (forall k | k in table :: table[k] < |handles| && handles[table[k]].key == k)
    && (forall k | k in table :: handles[table[k]].flags.inCache || stage == Evicted(table[k]))
    && (forall k | k in table :: !BitOnly(stage, table[k]))
    && (forall h | 0 <= h < |handles| && handles[h].flags.inCache && !BitOnly(stage, h) ::
          handles[h].key in table && table[handles[h].key] == h)
    && (Inserting(stage).Some? ==>
          var h := Inserting(stage).value;
          h < |handles| && handles[h].flags.inCache && (stage.Stored? || handles[h].key !in table))
    && (stage.Evicted? ==>
          stage.h < |handles| && !handles[stage.h].flags.inCache
          && handles[stage.h].key in table && table[handles[stage.h].key] == stage.h)
    && (stage.Unset? ==> stage.h < |handles| && (stage.next.ToLink? ==> stage.h != stage.next.h))
  }

  /** Keys and in-cache bits decide; other changes do not matter. */
  lemma TableUpdate(handles: seq<Handle>, table: map<Key, HandleId>, stage: Stage, h: HandleId, x: Handle)
    requires TableOk(handles, table, stage) && h < |handles|
    requires x.flags.inCache == handles[h].flags.inCache && (x.key == handles[h].key || !x.flags.inCache)
    requires stage.Evicted? ==> x.key == handles[h].key
    requires x.key == handles[h].key || (forall k | k in table :: table[k] != h)
    ensures TableOk(handles[h := x], table, stage)
  {
  }

  // ---- Usage

  function Weight(x: Handle): nat {
    if x.home.Occupied? then x.charge else 0
  }

  function Total(handles: seq<Handle>): nat {
    if handles == [] then 0 else Total(handles[..|handles| - 1]) + Weight(handles[|handles| - 1])
  }

  lemma {:induction false} TotalUpdate(handles: seq<Handle>, h: HandleId, x: Handle)
    requires h < |handles|
    ensures Total(handles[h := x]) == Total(handles) - Weight(handles[h]) + Weight(x)
    decreases |handles|
  {
    var n := |handles| - 1;
    if h == n {
      assert handles[h := x][..n] == handles[..n];
    } else {
      assert handles[h := x][..n] == handles[..n][h := x];
      TotalUpdate(handles[..n], h, x);
    }
  }

  lemma TotalAppend(handles: seq<Handle>, x: Handle)
    ensures Total(handles + [x]) == Total(handles) + Weight(x)
  {
    assert (handles + [x])[..|handles|] == handles;
  }

  /** `usage_` is the total charge of the handles out of the bin; Insert adds its own charge last. */
  ghost predicate UsageOk(handles: seq<Handle>, usage: int, stage: Stage) {
    && (Inserting(stage).Some? ==> Inserting(stage).value < |handles|)
    && usage + (if Inserting(stage).Some? then handles[Inserting(stage).value].charge else 0) == Total(handles)
  }

  // ---- Control

  datatype View = View(pc: Pc, hasLocal: bool, hasDuty: bool, owns: bool, stage: Stage)
  {
    predicate Ok() {
      && (pc.Reffed? || pc.Dropping? ==> hasLocal)
      && (hasLocal ==> pc.Reffed? || pc.Dropping? || (pc.InOp? && !stage.Picked? && !stage.Filled?))
      && (hasDuty ==> pc.MustRecycle? || pc.RecycleLocked? || (pc.InOp? && (stage.Evicted? || stage.Recycle?)))
      && (pc.MustRecycle? ==> hasDuty)
      && (pc.InOp? && (stage.Evicted? || stage.Recycle?) ==> hasDuty)
      && (owns <==> pc.RecycleLocked? || pc.InOp?)
      && (pc.RecycleLocked? ==> stage.Ready?)
    }
  }

  function ViewOf(s: State, t: Thread): View
    requires t in s.pc
  {
    var owns := s.mutex == Some(t);
    View(s.pc[t], Local(t) in s.at, t in s.duty, owns, if owns then s.stage else Ready)
  }

  ghost predicate Threads(s: State) {
    forall t | t in s.pc :: ViewOf(s, t).Ok()
  }

  ghost predicate Control(s: State) {
    && (s.mutex.Some? ==> s.mutex.value in s.pc)
    && (!s.stage.Ready? ==> s.mutex.Some? && At(s, s.mutex.value, InOp))
    && (forall t | t in s.duty :: t in s.pc)
    && (forall t | Local(t) in s.at :: t in s.pc)
    && (forall t | t in s.pc && s.pc[t].Found? :: s.pc[t].h < |s.handles|)
  }

  /** Exactly the handle of the insert in progress is being filled. */
  ghost predicate FillingOk(handles: seq<Handle>, stage: Stage) {
    && (stage.Picked? || stage.Filled? ==> stage.h < |handles| && handles[stage.h].home.Filling?)
    && (forall h | 0 <= h < |handles| && handles[h].home.Filling? :: (stage.Picked? || stage.Filled?) && stage.h == h)
    && (stage.Evicted? ==> stage.h < |handles|)
  }

  ghost predicate Data(s: State) {
    && Counted(s.handles, s.at)
    && Doomed(s.handles, s.duty)
    && ClientsOk(s.handles, s.at, s.clientKey)
    && TableOk(s.handles, s.table, s.stage)
    && UsageOk(s.handles, s.usage, s.stage)
    && FillingOk(s.handles, s.stage)
  }

  ghost predicate Inv(s: State) {
    Data(s) && Control(s) && Threads(s)
  }

  lemma InitInv(s: State)
    requires Init(s)
    ensures Inv(s)
  {
  }
}
