/** Every step of the CLOCK cache shard keeps the invariant. */
module ClockSteps {
  import opened Holding
  import opened Options
  import opened ClockCache
  import opened ClockInvariant

  // ---- Control

  /** Only thread `t` moved; the mutex is where it was, or `t` took or released it. */
  ghost predicate OnlyThread(s: State, s': State, t: Thread) {
    && t in s.pc && t in s'.pc && s'.pc == s.pc[t := s'.pc[t]]
    && (forall u | u != t :: Local(u) in s'.at <==> Local(u) in s.at)
    && (forall u | u != t :: u in s'.duty <==> u in s.duty)
    && (s'.mutex == s.mutex || (s.mutex in {None, Some(t)} && s'.mutex in {None, Some(t)}))
    && (s'.stage == s.stage || (s.mutex == Some(t) && s'.mutex == Some(t)))
    && |s.handles| <= |s'.handles| && (s'.pc[t].Found? ==> s'.pc[t].h < |s'.handles|)
  }

  lemma ThreadsFrame(s: State, s': State, t: Thread)
    requires Threads(s) && OnlyThread(s, s', t) && ViewOf(s', t).Ok()
    ensures Threads(s')
  {
    hide View.Ok;
    forall u | u in s'.pc ensures ViewOf(s', u).Ok() {
      if u != t {
        assert ViewOf(s, u).Ok();
        assert ViewOf(s', u) == ViewOf(s, u);
      }
    }
  }

  lemma ControlFrame(s: State, s': State, t: Thread)
    requires Control(s) && OnlyThread(s, s', t) && (ViewOf(s, t).Ok() && ViewOf(s', t).Ok())
    requires s.mutex == Some(t) && !s.stage.Ready? ==> s'.mutex == Some(t) && s'.pc[t].InOp?
    requires s.mutex == Some(t) && !s'.stage.Ready? ==> s'.pc[t].InOp?
    requires s.mutex == s'.mutex == Some(t) && !s.stage.Ready? ==> s.pc[t].InOp?
    ensures Control(s')
  {
    forall u | u in s'.duty ensures u in s'.pc {
      if u != t { assert u in s.duty; }
    }
    forall u | Local(u) in s'.at ensures u in s'.pc {
      if u != t { assert Local(u) in s.at; }
    }
    forall u | u in s'.pc && s'.pc[u].Found? ensures s'.pc[u].h < |s'.handles| {
      if u != t { assert s.pc[u] == s'.pc[u]; }
    }
  }

  lemma Known(s: State, t: Thread)
    requires Inv(s) && t in s.pc
    ensures Data(s) && Control(s) && Threads(s) && ViewOf(s, t).Ok()
    ensures s.pc[t].Found? ==> s.pc[t].h < |s.handles|
  {
  }

  /** A step of one thread keeps the invariant if it keeps the data and its own view in order. */
  lemma Keeps(s: State, s': State, t: Thread)
    requires Inv(s) && Data(s') && t in s.pc && OnlyThread(s, s', t) && ViewOf(s', t).Ok()
    requires s.mutex == Some(t) && !s.stage.Ready? ==> s'.mutex == Some(t) && s'.pc[t].InOp?
    requires s.mutex == Some(t) && !s'.stage.Ready? ==> s'.pc[t].InOp?
    ensures Inv(s')
  {
    hide Data;
    hide OnlyThread;
    hide View.Ok;
    Known(s, t);
    StageNeedsOp(s, t);
    ControlFrame(s, s', t);
    ThreadsFrame(s, s', t);
  }

  lemma StageNeedsOp(s: State, t: Thread)
    requires Control(s) && t in s.pc
    ensures s.mutex == Some(t) && !s.stage.Ready? ==> s.pc[t].InOp?
  {
  }

  // ---- Data

  /** A change of a handle's flags that keeps the in-cache bit. */
  lemma FlagsFrame(s: State, h: HandleId, f: Flags)
    requires Data(s) && h < |s.handles| && f.inCache == s.handles[h].flags.inCache
    ensures var hs := s.handles[h := s.handles[h].(flags := f)];
            TableOk(hs, s.table, s.stage) && UsageOk(hs, s.usage, s.stage) && FillingOk(hs, s.stage)
  {
    hide Counted;
    hide Doomed;
    hide ClientsOk;
    var x := s.handles[h].(flags := f);
    TableUpdate(s.handles, s.table, s.stage, h, x);
    TotalUpdate(s.handles, h, x);
    hide TableOk;
    hide Total;
  }

  lemma ClientsSame(hs: seq<Handle>, hs': seq<Handle>, at: map<Place, HandleId>, at': map<Place, HandleId>,
          clientKey: map<nat, Key>)
    requires ClientsOk(hs, at, clientKey) && |hs| <= |hs'|
    requires forall h | 0 <= h < |hs| :: hs'[h].key == hs[h].key
    requires forall id | Client(id) in at' :: Client(id) in at && at'[Client(id)] == at[Client(id)]
    ensures ClientsOk(hs', at', clientKey)
  {
  }

  lemma RefData(s: State, t: Thread, h: HandleId)
    requires Data(s) && h < |s.handles| && s.handles[h].flags.inCache && Local(t) !in s.at
    ensures var f := s.handles[h].flags; Data(SetFlags(s, h, f.(refs := f.refs + 1)).(at := s.at[Local(t) := h]))
  {
    hide Counted;
    hide Doomed;
    hide ClientsOk;
    hide TableOk;
    hide UsageOk;
    hide FillingOk;
    var f := s.handles[h].flags;
    var f' := f.(refs := f.refs + 1);
    var x := s.handles[h].(flags := f');
    FlagsFrame(s, h, f');
    CountedRef(s.handles, s.at, Local(t), h, x);
    DoomedLive(s.handles, s.duty, h, x);
    ClientsSame(s.handles, s.handles[h := x], s.at, s.at[Local(t) := h], s.clientKey);
  }

  lemma KeepsFind(s: State, t: Thread, k: Key)
    requires Inv(s) && At(s, t, Idle)
    ensures Inv(DoFind(s, t, k))
  {
    TableBound(s, k);
    hide Inv;
    hide Data;
    Known(s, t);
    var s' := DoFind(s, t, k);
    DataSame(s, s');
    Keeps(s, s', t);
  }

  lemma TableBound(s: State, k: Key)
    requires Inv(s)
    ensures k in s.table ==> s.table[k] < |s.handles|
  {
  }

  lemma DataSame(s: State, s': State)
    requires Data(s) && s' == s.(pc := s'.pc, mutex := s'.mutex)
    ensures Data(s')
  {
  }

  lemma DoRefData(s: State, t: Thread)
    requires Data(s) && t in s.pc && s.pc[t].Found? && s.pc[t].h < |s.handles| && Local(t) !in s.at
    ensures Data(DoRef(s, t))
  {
    hide Data;
    var s' := DoRef(s, t);
    var h := s.pc[t].h;
    if s.handles[h].flags.inCache {
      RefData(s, t, h);
      DataSame(s'.(pc := s.pc), s');
    } else {
      DataSame(s, s');
    }
  }

  lemma RefMoves(s: State, t: Thread)
    requires t in s.pc && s.pc[t].Found? && s.pc[t].h < |s.handles| && ViewOf(s, t).Ok()
    ensures OnlyThread(s, DoRef(s, t), t) && ViewOf(DoRef(s, t), t).Ok()
  {
  }

  lemma KeepsRef(s: State, t: Thread)
    requires Inv(s) && t in s.pc && s.pc[t].Found? && s.pc[t].h < |s.handles|
    ensures Inv(DoRef(s, t))
  {
    hide Inv;
    hide Data;
    Known(s, t);
    DoRefData(s, t);
    RefMoves(s, t);
    hide View.Ok;
    hide OnlyThread;
    Keeps(s, DoRef(s, t), t);
  }

  /** A reference passes to a client together with the key of its handle. */
  lemma HandOver(s: State, t: Thread, id: nat, k: Key)
    requires Data(s) && Local(t) in s.at && Client(id) !in s.at
    requires s.at[Local(t)] < |s.handles| && s.handles[s.at[Local(t)]].key == k
    ensures Data(s.(at := Move(s.at, Local(t), Client(id)), clientKey := s.clientKey[id := k]))
  {
    CountedMove(s.handles, s.at, Local(t), Client(id));
    var at', ck := Move(s.at, Local(t), Client(id)), s.clientKey[id := k];
    assert ClientsOk(s.handles, at', ck) by {
      forall i | Client(i) in at'
        ensures at'[Client(i)] < |s.handles| && i in ck && s.handles[at'[Client(i)]].key == ck[i]
      {
        if i != id { assert Client(i) in s.at; }
      }
    }
    hide Counted;
    hide Doomed;
    hide ClientsOk;
    hide TableOk;
    hide UsageOk;
    hide FillingOk;
  }

  lemma CheckKeyData(s: State, t: Thread, id: nat)
    requires Data(s) && t in s.pc && s.pc[t].Reffed? && Client(id) !in s.at
    requires Local(t) in s.at && s.at[Local(t)] < |s.handles|
    ensures Data(DoCheckKey(s, t, id))
  {
    hide Data;
    var s' := DoCheckKey(s, t, id);
    if s.handles[s.at[Local(t)]].key == s.pc[t].k {
      HandOver(s, t, id, s.pc[t].k);
    }
    DataSame(s'.(pc := s.pc), s');
  }

  lemma CheckKeyMoves(s: State, t: Thread, id: nat)
    requires t in s.pc && s.pc[t].Reffed? && Local(t) in s.at && s.at[Local(t)] < |s.handles| && ViewOf(s, t).Ok()
    ensures OnlyThread(s, DoCheckKey(s, t, id), t) && ViewOf(DoCheckKey(s, t, id), t).Ok()
  {
  }

  lemma KeepsCheckKey(s: State, t: Thread, id: nat)
    requires Inv(s) && t in s.pc && s.pc[t].Reffed? && Client(id) !in s.at
    requires Local(t) in s.at && s.at[Local(t)] < |s.handles|
    ensures Inv(DoCheckKey(s, t, id))
  {
    hide Inv;
    hide Data;
    Known(s, t);
    CheckKeyData(s, t, id);
    CheckKeyMoves(s, t, id);
    hide View.Ok;
    hide OnlyThread;
    Keeps(s, DoCheckKey(s, t, id), t);
  }

  lemma BeginReleaseData(s: State, t: Thread, id: nat)
    requires Data(s) && Client(id) in s.at && Local(t) !in s.at && s.at[Client(id)] < |s.handles|
    ensures Data(DoBeginRelease(s, t, id))
  {
    var h := s.at[Client(id)];
    var f' := s.handles[h].flags.(used := true);
    var x := s.handles[h].(flags := f');
    FlagsFrame(s, h, f');
    CountedUpdate(s.handles, s.at, h, x);
    CountedMove(s.handles[h := x], s.at, Client(id), Local(t));
    DoomedLive(s.handles, s.duty, h, x);
    var s' := DoBeginRelease(s, t, id);
    assert ClientsOk(s'.handles, s'.at, s'.clientKey) by {
      forall i | Client(i) in s'.at
        ensures s'.at[Client(i)] < |s'.handles| && i in s'.clientKey
        ensures s'.handles[s'.at[Client(i)]].key == s'.clientKey[i]
      {
        assert Client(i) in s.at && i != id;
      }
    }
    hide Counted;
    hide Doomed;
    hide ClientsOk;
    hide TableOk;
    hide UsageOk;
    hide FillingOk;
  }

  lemma KeepsBeginRelease(s: State, t: Thread, id: nat)
    requires Inv(s) && At(s, t, Idle) && Client(id) in s.at && s.at[Client(id)] < |s.handles|
    ensures Inv(DoBeginRelease(s, t, id))
  {
    hide Inv;
    hide Data;
    Known(s, t);
    BeginReleaseData(s, t, id);
    Keeps(s, DoBeginRelease(s, t, id), t);
  }

  lemma DecrementData(s: State, t: Thread)
    requires Data(s) && Local(t) in s.at && t !in s.duty
    requires s.at[Local(t)] < |s.handles| && s.handles[s.at[Local(t)]].flags.refs > 0
    ensures Data(DoDecrement(s, t))
  {
    hide Counted;
    hide Doomed;
    hide ClientsOk;
    hide TableOk;
    hide UsageOk;
    hide FillingOk;
    var h := s.at[Local(t)];
    var f := s.handles[h].flags;
    var f' := f.(refs := f.refs - 1);
    var x := s.handles[h].(flags := f');
    FlagsFrame(s, h, f');
    CountedUnref(s.handles, s.at, Local(t), x);
    OccupiedIfLive(s, h);
    if f.refs == 1 && !f.inCache {
      DoomedTake(s.handles, s.duty, t, h, x);
    } else {
      DoomedLive(s.handles, s.duty, h, x);
    }
    ClientsSame(s.handles, s.handles[h := x], s.at, s.at - {Local(t)}, s.clientKey);
  }

  lemma OccupiedIfLive(s: State, h: HandleId)
    requires Data(s) && h < |s.handles| && !Idling(s.handles[h])
    ensures s.handles[h].home.Occupied?
  {
  }

  lemma KeepsDecrement(s: State, t: Thread)
    requires Inv(s) && At(s, t, Dropping)
    requires Local(t) in s.at && s.at[Local(t)] < |s.handles| && s.handles[s.at[Local(t)]].flags.refs > 0
    ensures Inv(DoDecrement(s, t))
  {
    hide Inv;
    hide Data;
    Known(s, t);
    DecrementData(s, t);
    Keeps(s, DoDecrement(s, t), t);
  }

  lemma KeepsLockRecycle(s: State, t: Thread)
    requires Inv(s) && At(s, t, MustRecycle) && s.mutex.None?
    ensures Inv(s.(mutex := Some(t), pc := s.pc[t := RecycleLocked]))
  {
    FreeMeansReady(s);
    hide Inv;
    hide Data;
    Known(s, t);
    var s' := s.(mutex := Some(t), pc := s.pc[t := RecycleLocked]);
    DataSame(s, s');
    Keeps(s, s', t);
  }

  lemma FreeMeansReady(s: State)
    requires Inv(s) && s.mutex.None?
    ensures s.stage.Ready?
  {
  }

  lemma KeepsUnlockRecycle(s: State, t: Thread)
    requires Inv(s) && At(s, t, RecycleLocked) && t !in s.duty
    ensures Inv(s.(mutex := None, pc := s.pc[t := Idle]))
  {
    hide Inv;
    hide Data;
    Known(s, t);
    var s' := s.(mutex := None, pc := s.pc[t := Idle]);
    DataSame(s, s');
    Keeps(s, s', t);
  }

  // ---- Recycling

  /** From one stage of an operation to what it goes on with. */
  lemma TableNext(handles: seq<Handle>, table: map<Key, HandleId>, n: Next)
    requires TableOk(handles, table, Recycle(n))
    ensures TableOk(handles, table, StageOf(n))
  {
    forall h ensures BitOnly(StageOf(n), h) == BitOnly(Recycle(n), h) {
    }
  }

  lemma RecycleUsage(s: State, h: HandleId, stage: Stage)
    requires UsageOk(s.handles, s.usage, s.stage) && h < |s.handles| && s.handles[h].home.Occupied?
    requires Inserting(stage) == Inserting(s.stage)
    ensures UsageOk(s.handles[h := s.handles[h].(home := Bin)], s.usage - s.handles[h].charge, stage)
  {
    TotalUpdate(s.handles, h, s.handles[h].(home := Bin));
    hide Total;
  }

  lemma RecycleData(s: State, t: Thread)
    requires Data(s) && t in s.duty && s.duty[t] < |s.handles|
    ensures Data(DoRecycleHandle(s, t))
  {
    hide Counted;
    hide Doomed;
    hide ClientsOk;
    hide TableOk;
    hide UsageOk;
    hide FillingOk;
    var h := s.duty[t];
    var x := s.handles[h].(home := Bin);
    var s' := DoRecycleHandle(s, t);
    CountedUpdate(s.handles, s.at, h, x);
    DoomedRecycle(s.handles, s.duty, t);
    ClientsSame(s.handles, s.handles[h := x], s.at, s.at, s.clientKey);
    TableUpdate(s.handles, s.table, s.stage, h, x);
    if s.stage.Recycle? {
      TableNext(s'.handles, s.table, s.stage.next);
    }
    RecycleUsage(s, h, s'.stage);
    RecycleFilling(s, h, s'.stage);
  }

  lemma RecycleFilling(s: State, h: HandleId, stage: Stage)
    requires FillingOk(s.handles, s.stage) && h < |s.handles| && s.handles[h].home.Occupied?
    requires stage == s.stage || (s.stage.Recycle? && stage == StageOf(s.stage.next))
    ensures FillingOk(s.handles[h := s.handles[h].(home := Bin)], stage)
  {
  }

  lemma KeepsRecycleHandle(s: State, t: Thread)
    requires Inv(s) && t in s.duty && s.duty[t] < |s.handles|
    requires At(s, t, RecycleLocked) || (Owns(s, t) && s.stage.Recycle?)
    ensures Inv(DoRecycleHandle(s, t))
  {
    hide Inv;
    hide Data;
    Known(s, t);
    RecycleData(s, t);
    Keeps(s, DoRecycleHandle(s, t), t);
  }

  // ---- Operations under the mutex

  lemma KeepsBeginOp(s: State, t: Thread)
    requires Inv(s) && At(s, t, Idle) && s.mutex.None?
    ensures Inv(s.(mutex := Some(t), pc := s.pc[t := InOp]))
  {
    FreeMeansReady(s);
    hide Inv;
    hide Data;
    Known(s, t);
    var s' := s.(mutex := Some(t), pc := s.pc[t := InOp]);
    DataSame(s, s');
    Keeps(s, s', t);
  }

  lemma EndOpData(s: State, t: Thread, id: nat)
    requires Data(s) && Client(id) !in s.at && (Local(t) in s.at ==> s.at[Local(t)] < |s.handles|)
    ensures Data(DoEndOp(s, t, id))
  {
    hide Data;
    var s' := DoEndOp(s, t, id);
    if Local(t) in s.at {
      HandOver(s, t, id, s.handles[s.at[Local(t)]].key);
    }
    DataSame(s'.(pc := s.pc, mutex := s.mutex), s');
  }

  lemma KeepsEndOp(s: State, t: Thread, id: nat)
    requires Inv(s) && Owns(s, t) && s.stage.Ready? && Client(id) !in s.at
    requires Local(t) in s.at ==> s.at[Local(t)] < |s.handles|
    ensures Inv(DoEndOp(s, t, id))
  {
    hide Inv;
    hide Data;
    Known(s, t);
    EndOpData(s, t, id);
    Keeps(s, DoEndOp(s, t, id), t);
  }

  lemma EvictTable(s: State, h: HandleId, x: Handle)
    requires TableOk(s.handles, s.table, Ready) && h < |s.handles| && s.handles[h].flags.inCache
    requires x.key == s.handles[h].key && !x.flags.inCache
    ensures TableOk(s.handles[h := x], s.table, Evicted(h))
  {
  }

  lemma TryEvictData(s: State, t: Thread, h: HandleId)
    requires Data(s) && s.stage.Ready? && t !in s.duty && h < |s.handles|
    ensures Data(DoTryEvict(s, t, h))
  {
    hide Counted;
    hide Doomed;
    hide ClientsOk;
    hide TableOk;
    hide UsageOk;
    hide FillingOk;
    var f := s.handles[h].flags;
    if f == Flags(true, false, 0) {
      var x := s.handles[h].(flags := Flags(false, false, 0));
      CountedUpdate(s.handles, s.at, h, x);
      OccupiedIfLive(s, h);
      DoomedTake(s.handles, s.duty, t, h, x);
      ClientsSame(s.handles, s.handles[h := x], s.at, s.at, s.clientKey);
      EvictTable(s, h, x);
      ClearBitRest(s, h, x, Evicted(h));
    }
  }

  lemma KeepsClearUsage(s: State, t: Thread, h: HandleId)
    requires Inv(s) && Owns(s, t) && s.stage.Ready? && h < |s.handles|
    ensures Inv(DoClearUsage(s, h))
  {
    hide Inv, Data;
    Known(s, t);
    ClearUsageData(s, h);
    Keeps(s, DoClearUsage(s, h), t);
  }

  lemma ClearUsageData(s: State, h: HandleId)
    requires Data(s) && h < |s.handles|
    ensures Data(DoClearUsage(s, h))
  {
    hide Counted, Doomed, ClientsOk, TableOk, UsageOk, FillingOk;
    var f := s.handles[h].flags.(used := false);
    var x := s.handles[h].(flags := f);
    FlagsFrame(s, h, f);
    CountedUpdate(s.handles, s.at, h, x);
    DoomedLive(s.handles, s.duty, h, x);
    ClientsSame(s.handles, s.handles[h := x], s.at, s.at, s.clientKey);
  }

  /** Another reference of a client is to the same handle, under the same key. */
  lemma RefHeldData(s: State, id: nat, other: nat)
    requires Data(s) && Client(id) in s.at && Client(other) !in s.at && id in s.clientKey
    requires s.at[Client(id)] < |s.handles| && s.handles[s.at[Client(id)]].flags.inCache
    ensures Data(DoRefHeld(s, id, other))
  {
    hide Counted, Doomed, TableOk, UsageOk, FillingOk;
    var h := s.at[Client(id)];
    var f := s.handles[h].flags;
    var f' := f.(refs := f.refs + 1);
    var x := s.handles[h].(flags := f');
    FlagsFrame(s, h, f');
    CountedRef(s.handles, s.at, Client(other), h, x);
    DoomedLive(s.handles, s.duty, h, x);
    var s' := DoRefHeld(s, id, other);
    assert ClientsOk(s'.handles, s'.at, s'.clientKey) by {
      forall i | Client(i) in s'.at ensures s'.at[Client(i)] < |s'.handles| && i in s'.clientKey
                                            && s'.handles[s'.at[Client(i)]].key == s'.clientKey[i] {
        assert i != other ==> Client(i) in s.at;
      }
    }
  }

  lemma KeepsRefHeld(s: State, t: Thread, id: nat, other: nat)
    requires Inv(s) && At(s, t, Idle) && Client(id) in s.at && Client(other) !in s.at && id in s.clientKey
    requires s.at[Client(id)] < |s.handles|
    ensures Inv(DoRefHeld(s, id, other))
  {
    hide Inv, Data;
    Known(s, t);
    if s.handles[s.at[Client(id)]].flags.inCache {
      RefHeldData(s, id, other);
      Keeps(s, DoRefHeld(s, id, other), t);
    }
  }

  /** Flags do not matter for usage or for what is being filled. */
  lemma ClearBitRest(s: State, h: HandleId, x: Handle, stage: Stage)
    requires UsageOk(s.handles, s.usage, s.stage) && FillingOk(s.handles, s.stage) && h < |s.handles|
    requires x == s.handles[h].(flags := x.flags) && Inserting(stage) == Inserting(s.stage)
    requires !s.stage.Picked? && !s.stage.Filled? && !stage.Picked? && !stage.Filled?
    requires stage.Evicted? ==> stage.h < |s.handles|
    ensures UsageOk(s.handles[h := x], s.usage, stage) && FillingOk(s.handles[h := x], stage)
  {
    TotalUpdate(s.handles, h, x);
    hide Total;
  }

  lemma TryEvictMoves(s: State, t: Thread, h: HandleId)
    requires Owns(s, t) && s.stage.Ready? && h < |s.handles| && ViewOf(s, t).Ok()
    ensures OnlyThread(s, DoTryEvict(s, t, h), t) && ViewOf(DoTryEvict(s, t, h), t).Ok()
  {
  }

  lemma KeepsTryEvict(s: State, t: Thread, h: HandleId)
    requires Inv(s) && Owns(s, t) && s.stage.Ready? && h < |s.handles|
    ensures Inv(DoTryEvict(s, t, h))
  {
    hide Inv;
    hide Data;
    Known(s, t);
    TryEvictData(s, t, h);
    TryEvictMoves(s, t, h);
    hide View.Ok;
    hide OnlyThread;
    Keeps(s, DoTryEvict(s, t, h), t);
  }

  lemma UnsetTable(handles: seq<Handle>, table: map<Key, HandleId>, h: HandleId, n: Next, x: Handle)
    requires TableOk(handles, table, Unset(h, n)) && h < |handles| && x.key == handles[h].key && !x.flags.inCache
    ensures TableOk(handles[h := x], table, Recycle(n))
  {
    forall g | g != h ensures BitOnly(Recycle(n), g) == BitOnly(Unset(h, n), g) {
    }
  }

  lemma UnsetData(s: State, t: Thread)
    requires Data(s) && s.stage.Unset? && s.stage.h < |s.handles| && t !in s.duty
    ensures Data(DoUnsetInCache(s, t))
  {
    hide Counted;
    hide Doomed;
    hide ClientsOk;
    hide TableOk;
    hide UsageOk;
    hide FillingOk;
    var h, n := s.stage.h, s.stage.next;
    var f := s.handles[h].flags;
    var x := s.handles[h].(flags := f.(inCache := false));
    CountedUpdate(s.handles, s.at, h, x);
    ClientsSame(s.handles, s.handles[h := x], s.at, s.at, s.clientKey);
    UnsetTable(s.handles, s.table, h, n, x);
    if f.inCache && f.refs == 0 {
      OccupiedIfLive(s, h);
      DoomedTake(s.handles, s.duty, t, h, x);
      ClearBitRest(s, h, x, Recycle(n));
    } else {
      DoomedLive(s.handles, s.duty, h, x);
      TableNext(s.handles[h := x], s.table, n);
      ClearBitRest(s, h, x, StageOf(n));
    }
  }

  lemma UnsetInCacheMoves(s: State, t: Thread)
    requires Owns(s, t) && s.stage.Unset? && s.stage.h < |s.handles| && ViewOf(s, t).Ok()
    ensures OnlyThread(s, DoUnsetInCache(s, t), t) && ViewOf(DoUnsetInCache(s, t), t).Ok()
  {
  }

  lemma KeepsUnsetInCache(s: State, t: Thread)
    requires Inv(s) && Owns(s, t) && s.stage.Unset? && s.stage.h < |s.handles|
    ensures Inv(DoUnsetInCache(s, t))
  {
    hide Inv;
    hide Data;
    Known(s, t);
    UnsetData(s, t);
    UnsetInCacheMoves(s, t);
    hide View.Ok;
    hide OnlyThread;
    Keeps(s, DoUnsetInCache(s, t), t);
  }

  // ---- Inserting

  lemma PickData(s: State, h: HandleId, k: Key, c: nat, hold: bool)
    requires Data(s) && s.stage.Ready? && (h == |s.handles| || (h < |s.handles| && s.handles[h].home.Bin?))
    ensures Data(DoPick(s, h, k, c, hold))
  {
    hide Counted;
    hide Doomed;
    hide ClientsOk;
    hide TableOk;
    var stage := Picked(h, k, c, hold);
    if h == |s.handles| {
      var x := Handle(k, c, Flags(false, false, 0), Filling);
      CountedAppend(s.handles, s.at, x);
      DoomedAppend(s.handles, s.duty, x);
      ClientsSame(s.handles, s.handles + [x], s.at, s.at, s.clientKey);
      TotalAppend(s.handles, x);
      TableAppend(s.handles, s.table, x, stage);
    } else {
      var x := s.handles[h].(home := Filling);
      IdlingOutOfUse(s, h);
      CountedUpdate(s.handles, s.at, h, x);
      DoomedUnused(s.handles, s.duty, h, x);
      ClientsSame(s.handles, s.handles[h := x], s.at, s.at, s.clientKey);
      TotalUpdate(s.handles, h, x);
      TableUpdate(s.handles, s.table, s.stage, h, x);
      TableRename(s.handles[h := x], s.table, s.stage, stage);
    }
    hide Total;
  }

  lemma IdlingOutOfUse(s: State, h: HandleId)
    requires Data(s) && h < |s.handles| && !s.handles[h].home.Occupied?
    ensures Idling(s.handles[h])
  {
  }

  lemma TableAppend(handles: seq<Handle>, table: map<Key, HandleId>, x: Handle, stage: Stage)
    requires TableOk(handles, table, Ready) && !x.flags.inCache && stage.Picked?
    ensures TableOk(handles + [x], table, stage)
  {
  }

  /** Stages that say nothing about the table are alike. */
  lemma TableRename(handles: seq<Handle>, table: map<Key, HandleId>, stage: Stage, stage': Stage)
    requires TableOk(handles, table, stage)
    requires (stage.Ready? || stage.Picked?) && (stage'.Picked? || stage'.Filled?)
    ensures TableOk(handles, table, stage')
  {
  }

  lemma KeepsPick(s: State, t: Thread, h: HandleId, k: Key, c: nat, hold: bool)
    requires Inv(s) && Owns(s, t) && s.stage.Ready? && Local(t) !in s.at
    requires h == |s.handles| || (h < |s.handles| && s.handles[h].home.Bin?)
    ensures Inv(DoPick(s, h, k, c, hold))
  {
    hide Inv;
    hide Data;
    Known(s, t);
    PickData(s, h, k, c, hold);
    Keeps(s, DoPick(s, h, k, c, hold), t);
  }

  /** A handle that is not in the cache is not in the table. */
  lemma NotInTable(handles: seq<Handle>, table: map<Key, HandleId>, stage: Stage, h: HandleId)
    requires TableOk(handles, table, stage) && !stage.Evicted? && h < |handles| && !handles[h].flags.inCache
    ensures forall k | k in table :: table[k] != h
  {
  }

  lemma FillUsage(s: State, h: HandleId, x: Handle)
    requires UsageOk(s.handles, s.usage, s.stage) && FillingOk(s.handles, s.stage) && s.stage.Picked? && h == s.stage.h
    requires x.home.Filling?
    ensures h < |s.handles| && s.handles[h].home.Filling?
    ensures UsageOk(s.handles[h := x], s.usage, Filled(h, s.stage.hold))
    ensures FillingOk(s.handles[h := x], Filled(h, s.stage.hold))
  {
    TotalUpdate(s.handles, h, x);
    hide Total;
  }

  lemma FillData(s: State)
    requires Data(s) && s.stage.Picked? && s.stage.h < |s.handles|
    ensures Data(DoFill(s))
  {
    hide Counted;
    hide Doomed;
    hide ClientsOk;
    hide TableOk;
    hide UsageOk;
    hide FillingOk;
    var h := s.stage.h;
    var x := s.handles[h].(key := s.stage.k, charge := s.stage.c);
    FillingHome(s);
    FillUsage(s, h, x);
    IdlingOutOfUse(s, h);
    CountedUpdate(s.handles, s.at, h, x);
    DoomedUnused(s.handles, s.duty, h, x);
    ClientsFill(s.handles, s.at, s.clientKey, h, x);
    NotInTable(s.handles, s.table, s.stage, h);
    TableUpdate(s.handles, s.table, s.stage, h, x);
    TableRename(s.handles[h := x], s.table, s.stage, Filled(h, s.stage.hold));
  }

  lemma FillingHome(s: State)
    requires FillingOk(s.handles, s.stage) && (s.stage.Picked? || s.stage.Filled?)
    ensures s.stage.h < |s.handles| && s.handles[s.stage.h].home.Filling?
  {
  }

  lemma KeepsFill(s: State, t: Thread)
    requires Inv(s) && s.stage.Picked? && s.stage.h < |s.handles| && Owns(s, t)
    ensures Inv(DoFill(s))
  {
    hide Inv;
    hide Data;
    Known(s, t);
    FillData(s);
    Keeps(s, DoFill(s), t);
  }

  lemma StoreTable(handles: seq<Handle>, table: map<Key, HandleId>, h: HandleId, hold: bool, x: Handle)
    requires TableOk(handles, table, Filled(h, hold)) && h < |handles| && !handles[h].flags.inCache
    requires x.key == handles[h].key && x.flags.inCache
    ensures TableOk(handles[h := x], table, Stored(h))
  {
    NotInTable(handles, table, Filled(h, hold), h);
  }

  lemma StoreUsage(s: State, x: Handle)
    requires UsageOk(s.handles, s.usage, s.stage) && FillingOk(s.handles, s.stage) && s.stage.Filled?
    requires x.home.Occupied? && s.stage.h < |s.handles| && x.charge == s.handles[s.stage.h].charge
    ensures UsageOk(s.handles[s.stage.h := x], s.usage, Stored(s.stage.h))
    ensures FillingOk(s.handles[s.stage.h := x], Stored(s.stage.h))
  {
    TotalUpdate(s.handles, s.stage.h, x);
    hide Total;
  }

  lemma StoreData(s: State, t: Thread)
    requires Data(s) && s.stage.Filled? && s.stage.h < |s.handles| && Local(t) !in s.at
    ensures Data(DoStore(s, t))
  {
    hide Counted;
    hide Doomed;
    hide ClientsOk;
    hide TableOk;
    hide UsageOk;
    hide FillingOk;
    var h := s.stage.h;
    var x := s.handles[h].(flags := Flags(true, false, if s.stage.hold then 1 else 0), home := Occupied);
    FillingHome(s);
    IdlingOutOfUse(s, h);
    DoomedUnused(s.handles, s.duty, h, x);
    StoreTable(s.handles, s.table, h, s.stage.hold, x);
    StoreUsage(s, x);
    if s.stage.hold {
      CountedRef(s.handles, s.at, Local(t), h, x);
      ClientsSame(s.handles, s.handles[h := x], s.at, s.at[Local(t) := h], s.clientKey);
    } else {
      CountedUpdate(s.handles, s.at, h, x);
      ClientsSame(s.handles, s.handles[h := x], s.at, s.at, s.clientKey);
    }
  }

  lemma KeepsStore(s: State, t: Thread)
    requires Inv(s) && Owns(s, t) && s.stage.Filled? && s.stage.h < |s.handles| && Local(t) !in s.at
    ensures Inv(DoStore(s, t))
  {
    hide Inv;
    hide Data;
    Known(s, t);
    StoreData(s, t);
    Keeps(s, DoStore(s, t), t);
  }

  // ---- Steps that change only the table and the stage

  ghost predicate SameKind(stage: Stage, stage': Stage) {
    && Inserting(stage) == Inserting(stage')
    && !stage.Picked? && !stage.Filled? && !stage'.Picked? && !stage'.Filled? && !stage'.Evicted?
  }

  lemma TableOnlyData(s: State, table: map<Key, HandleId>, stage: Stage)
    requires Data(s) && SameKind(s.stage, stage) && TableOk(s.handles, table, stage)
    ensures Data(s.(table := table, stage := stage))
  {
    hide Counted;
    hide Doomed;
    hide ClientsOk;
    hide TableOk;
    hide Total;
  }

  lemma EraseEvictedTable(s: State)
    requires TableOk(s.handles, s.table, s.stage) && s.stage.Evicted? && s.stage.h < |s.handles|
    ensures TableOk(s.handles, s.table - {s.handles[s.stage.h].key}, Recycle(ToReady))
  {
  }

  lemma EraseKeyTable(s: State, k: Key)
    requires TableOk(s.handles, s.table, s.stage) && s.stage.Ready? && k in s.table
    ensures TableOk(s.handles, s.table - {k}, Unset(s.table[k], ToReady))
  {
  }

  lemma EraseExistingTable(s: State)
    requires TableOk(s.handles, s.table, s.stage) && s.stage.Stored? && s.stage.h < |s.handles|
    ensures TableOk(s.handles, DoEraseExisting(s).table, DoEraseExisting(s).stage)
  {
    hide TableOk;
    var k := s.handles[s.stage.h].key;
    if k in s.table {
      UnlinkedTable(s.handles, s.table, s.stage.h, k);
    } else {
      UnlistedTable(s.handles, s.table, s.stage.h);
    }
  }

  lemma UnlistedTable(handles: seq<Handle>, table: map<Key, HandleId>, h: HandleId)
    requires TableOk(handles, table, Stored(h)) && h < |handles| && handles[h].key !in table
    ensures TableOk(handles, table, Link(h))
  {
    assert forall x :: BitOnly(Stored(h), x) == BitOnly(Link(h), x);
  }

  /** The old entry for the key leaves the table; only its bit is still set. */
  lemma UnlinkedTable(handles: seq<Handle>, table: map<Key, HandleId>, h: HandleId, k: Key)
    requires TableOk(handles, table, Stored(h)) && h < |handles| && handles[h].key == k && k in table
    ensures TableOk(handles, table - {k}, Unset(table[k], ToLink(h)))
  {
    var old' := table[k];
    assert old' != h by {
      assert !BitOnly(Stored(h), old');
    }
    forall x | 0 <= x < |handles| && handles[x].flags.inCache && !BitOnly(Unset(old', ToLink(h)), x)
      ensures handles[x].key in table - {k} && (table - {k})[handles[x].key] == x
    {
      assert !BitOnly(Stored(h), x);
    }
  }

  lemma ClearTableOk(s: State)
    requires TableOk(s.handles, s.table, s.stage) && s.stage.Ready?
    ensures TableOk(s.handles, map[], Sweep(0))
  {
  }

  /** Stages that excuse the same handles are alike. */
  lemma TableBits(handles: seq<Handle>, table: map<Key, HandleId>, stage: Stage, stage': Stage)
    requires TableOk(handles, table, stage) && Inserting(stage).None? && Inserting(stage').None?
    requires forall h | 0 <= h < |handles| :: BitOnly(stage, h) == BitOnly(stage', h)
    requires !stage.Evicted? && !stage'.Evicted? && (stage'.Unset? ==> stage'.h < |handles| && !stage'.next.ToLink?)
    ensures TableOk(handles, table, stage')
  {
    hide BitOnly;
    hide Inserting;
  }

  lemma SweepTable(s: State)
    requires TableOk(s.handles, s.table, s.stage) && s.stage.Sweep?
    ensures TableOk(s.handles, s.table, DoSweepNext(s).stage)
  {
    hide TableOk;
    TableBits(s.handles, s.table, s.stage, DoSweepNext(s).stage);
  }

  lemma LinkTable(s: State)
    requires TableOk(s.handles, s.table, s.stage) && s.stage.Link? && s.stage.h < |s.handles|
    ensures TableOk(s.handles, DoLinkKey(s).table, Ready)
  {
  }

  lemma TableOf(s: State)
    requires Data(s)
    ensures TableOk(s.handles, s.table, s.stage)
  {
  }

  lemma LinkData(s: State)
    requires Data(s) && s.stage.Link? && s.stage.h < |s.handles|
    ensures Data(DoLinkKey(s))
  {
    LinkTable(s);
    hide Counted;
    hide Doomed;
    hide ClientsOk;
    hide TableOk;
    hide Total;
  }

  /** A step of the operation in progress that changes the table, the usage or the stage. */
  lemma OpKeeps(s: State, s': State, t: Thread)
    requires Inv(s) && Data(s') && Owns(s, t) && s' == s.(table := s'.table, usage := s'.usage, stage := s'.stage)
    requires t !in s.duty || s'.stage.Recycle?
    requires !s'.stage.Evicted? && !s'.stage.Picked? && !s'.stage.Filled? && (s'.stage.Recycle? ==> t in s.duty)
    ensures Inv(s')
  {
    hide Inv;
    hide Data;
    Known(s, t);
    Keeps(s, s', t);
  }

  lemma KeepsEraseEvicted(s: State, t: Thread)
    requires Inv(s) && Owns(s, t) && s.stage.Evicted? && s.stage.h < |s.handles|
    ensures Inv(DoEraseEvicted(s))
  {
    hide Inv;
    hide Data;
    hide TableOk;
    Known(s, t);
    TableOf(s);
    EraseEvictedTable(s);
    TableOnlyData(s, DoEraseEvicted(s).table, Recycle(ToReady));
    OpKeeps(s, DoEraseEvicted(s), t);
  }

  lemma KeepsEraseKey(s: State, t: Thread, k: Key)
    requires Inv(s) && Owns(s, t) && s.stage.Ready? && k in s.table
    ensures Inv(DoEraseKey(s, k))
  {
    hide Inv;
    hide Data;
    hide TableOk;
    Known(s, t);
    TableOf(s);
    EraseKeyTable(s, k);
    TableOnlyData(s, s.table - {k}, Unset(s.table[k], ToReady));
    OpKeeps(s, DoEraseKey(s, k), t);
  }

  lemma KeepsEraseExisting(s: State, t: Thread)
    requires Inv(s) && Owns(s, t) && s.stage.Stored? && s.stage.h < |s.handles|
    ensures Inv(DoEraseExisting(s))
  {
    hide Inv;
    hide Data;
    hide TableOk;
    Known(s, t);
    TableOf(s);
    EraseExistingTable(s);
    TableOnlyData(s, DoEraseExisting(s).table, DoEraseExisting(s).stage);
    OpKeeps(s, DoEraseExisting(s), t);
  }

  lemma KeepsLinkKey(s: State, t: Thread)
    requires Inv(s) && Owns(s, t) && s.stage.Link? && s.stage.h < |s.handles|
    ensures Inv(DoLinkKey(s))
  {
    hide Inv;
    hide Data;
    Known(s, t);
    LinkData(s);
    OpKeeps(s, DoLinkKey(s), t);
  }

  lemma KeepsClearTable(s: State, t: Thread)
    requires Inv(s) && Owns(s, t) && s.stage.Ready?
    ensures Inv(s.(table := map[], stage := Sweep(0)))
  {
    hide Inv;
    hide Data;
    hide TableOk;
    Known(s, t);
    TableOf(s);
    ClearTableOk(s);
    TableOnlyData(s, map[], Sweep(0));
    OpKeeps(s, s.(table := map[], stage := Sweep(0)), t);
  }

  lemma KeepsSweepNext(s: State, t: Thread)
    requires Inv(s) && Owns(s, t) && s.stage.Sweep?
    ensures Inv(DoSweepNext(s))
  {
    hide Inv;
    hide Data;
    hide TableOk;
    Known(s, t);
    TableOf(s);
    SweepTable(s);
    TableOnlyData(s, s.table, DoSweepNext(s).stage);
    OpKeeps(s, DoSweepNext(s), t);
  }
}
