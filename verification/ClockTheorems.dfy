/** What holds in every state of every run of the CLOCK cache shard. */
module ClockTheorems {
  import opened Holding
  import opened ClockCache
  import opened ClockInvariant
  import opened ClockSteps

  // ---- Every enabled step is safe

  lemma LocalAlive(s: State, t: Thread)
    requires Inv(s) && t in s.pc && (s.pc[t].Reffed? || s.pc[t].Dropping?)
    ensures Local(t) in s.at && s.at[Local(t)] < |s.handles| && s.handles[s.at[Local(t)]].flags.refs > 0
  {
    hide Doomed;
    hide ClientsOk;
    hide TableOk;
    hide UsageOk;
    hide FillingOk;
    assert ViewOf(s, t).Ok();
    HeldCount(s.handles, s.at, Local(t));
  }

  lemma ClientAlive(s: State, id: nat)
    requires Inv(s) && Client(id) in s.at
    ensures id in s.clientKey && s.at[Client(id)] < |s.handles| && s.handles[s.at[Client(id)]].flags.refs > 0
    ensures s.handles[s.at[Client(id)]].key == s.clientKey[id] && s.handles[s.at[Client(id)]].home.Occupied?
  {
    HeldCount(s.handles, s.at, Client(id));
  }

  /** Recycling finds its handle without bit or reference, and outside the bin. */
  lemma DutyAlive(s: State, t: Thread)
    requires Inv(s) && t in s.duty
    ensures s.duty[t] < |s.handles| && Idling(s.handles[s.duty[t]]) && s.handles[s.duty[t]].home.Occupied?
  {
  }

  lemma FoundBound(s: State, t: Thread)
    requires Inv(s) && t in s.pc && s.pc[t].Found?
    ensures s.pc[t].h < |s.handles|
  {
  }

  lemma StageBound(s: State)
    requires Inv(s)
    ensures s.stage.Evicted? ==>
              && s.stage.h < |s.handles| && s.handles[s.stage.h].key in s.table
              && s.table[s.handles[s.stage.h].key] == s.stage.h
    ensures s.stage.Unset? ==> s.stage.h < |s.handles|
    ensures s.stage.Stored? ==> s.stage.h < |s.handles|
    ensures s.stage.Link? ==> s.stage.h < |s.handles| && s.handles[s.stage.h].key !in s.table
    ensures forall k | k in s.table :: s.table[k] < |s.handles|
  {
  }

  lemma StageFilling(s: State)
    requires Inv(s) && (s.stage.Picked? || s.stage.Filled?)
    ensures s.stage.h < |s.handles| && Idling(s.handles[s.stage.h]) && s.handles[s.stage.h].home.Filling?
  {
    FillingHome(s);
    IdlingOutOfUse(s, s.stage.h);
  }

  lemma NoLocalWhileFilling(s: State, t: Thread)
    requires Inv(s) && Owns(s, t) && s.stage.Filled?
    ensures Local(t) !in s.at
  {
    hide Data;
    assert ViewOf(s, t).Ok();
  }

  lemma LocalBound(s: State, t: Thread)
    requires Inv(s) && Local(t) in s.at
    ensures s.at[Local(t)] < |s.handles|
  {
  }

  lemma InvSafe(s: State, step: Step)
    requires Inv(s) && Enabled(s, step)
    ensures Safe(s, step)
  {
    hide Inv;
    match step {
      case Ref(t) => FoundBound(s, t);
      case CheckKey(t, id) => LocalAlive(s, t);
      case BeginRelease(t, id) => ClientAlive(s, id);
      case RefHeld(t, id, other) => ClientAlive(s, id);
      case Decrement(t) => LocalAlive(s, t);
      case RecycleHandle(t) => DutyAlive(s, t);
      case EndOp(t, id) =>
        if Local(t) in s.at {
          LocalBound(s, t);
        }
      case EraseEvicted => StageBound(s);
      case EraseKey(k) => StageBound(s);
      case UnsetInCache(t) => StageBound(s);
      case Fill => StageFilling(s);
      case Store(t) =>
        StageFilling(s);
        NoLocalWhileFilling(s, t);
      case EraseExisting => StageBound(s);
      case LinkKey => StageBound(s);
      case _ =>
    }
  }

  /** The thread that holds the mutex while an operation is in progress. */
  lemma OpOwner(s: State) returns (t: Thread)
    requires Inv(s) && !s.stage.Ready?
    ensures Owns(s, t)
  {
    hide Data;
    t := s.mutex.value;
  }

  lemma StepKeepsInv(s: State, step: Step)
    requires Inv(s) && Enabled(s, step)
    ensures Safe(s, step) && Inv(Apply(s, step))
  {
    hide Inv;
    hide DoFind, DoRef, DoCheckKey, DoBeginRelease, DoDecrement, DoRecycleHandle, DoEndOp, DoTryEvict, DoClearUsage,
         DoRefHeld, DoEraseEvicted, DoEraseKey, DoUnsetInCache, DoPick, DoFill, DoStore, DoEraseExisting, DoLinkKey,
         DoSweepNext;
    InvSafe(s, step);
    match step {
      case Find(t, k) => KeepsFind(s, t, k);
      case Ref(t) => KeepsRef(s, t);
      case CheckKey(t, id) => KeepsCheckKey(s, t, id);
      case BeginRelease(t, id) => KeepsBeginRelease(s, t, id);
      case Decrement(t) => KeepsDecrement(s, t);
      case LockRecycle(t) => KeepsLockRecycle(s, t);
      case UnlockRecycle(t) => KeepsUnlockRecycle(s, t);
      case RecycleHandle(t) => KeepsRecycleHandle(s, t);
      case BeginOp(t) => KeepsBeginOp(s, t);
      case EndOp(t, id) => KeepsEndOp(s, t, id);
      case TryEvict(t, h) => KeepsTryEvict(s, t, h);
      case ClearUsage(t, h) => KeepsClearUsage(s, t, h);
      case RefHeld(t, id, other) => KeepsRefHeld(s, t, id, other);
      case UnsetInCache(t) => KeepsUnsetInCache(s, t);
      case Pick(t, h, k, c, hold) => KeepsPick(s, t, h, k, c, hold);
      case Store(t) => KeepsStore(s, t);
      case EraseKey(k) =>
        OwnerByMutex(s);
        KeepsEraseKey(s, s.mutex.value, k);
      case ClearTable =>
        OwnerByMutex(s);
        KeepsClearTable(s, s.mutex.value);
      case _ => OpStepKeepsInv(s, step);
    }
  }

  lemma OwnerByMutex(s: State)
    requires s.mutex.Some? && At(s, s.mutex.value, InOp)
    ensures Owns(s, s.mutex.value)
  {
  }

  lemma OpStepKeepsInv(s: State, step: Step)
    requires Inv(s) && Enabled(s, step) && Safe(s, step)
    requires step.EraseEvicted? || step.Fill? || step.EraseExisting? || step.LinkKey? || step.SweepNext?
    ensures Inv(Apply(s, step))
  {
    hide Inv;
    var t := OpOwner(s);
    match step {
      case EraseEvicted => KeepsEraseEvicted(s, t);
      case Fill => KeepsFill(s, t);
      case EraseExisting => KeepsEraseExisting(s, t);
      case LinkKey => KeepsLinkKey(s, t);
      case SweepNext => KeepsSweepNext(s, t);
    }
  }

  lemma StepOfRun(run: seq<State>, i: nat) returns (step: Step)
    requires IsRun(run) && i + 1 < |run|
    ensures Enabled(run[i], step) && Safe(run[i], step) && run[i + 1] == Apply(run[i], step)
  {
    hide Enabled;
    hide Safe;
    hide Apply;
    assert Steps(run[i], run[i + 1]);
    step :| Enabled(run[i], step) && Safe(run[i], step) && run[i + 1] == Apply(run[i], step);
  }

  lemma StartOfRun(run: seq<State>)
    requires IsRun(run)
    ensures run != [] && Init(run[0])
  {
  }

  lemma {:induction false} ReachableInv(run: seq<State>, i: nat)
    requires IsRun(run) && i < |run|
    ensures Inv(run[i])
  {
    hide Inv;
    hide IsRun;
    hide Enabled;
    hide Safe;
    hide Apply;
    if i == 0 {
      StartOfRun(run);
      InitInv(run[0]);
    } else {
      ReachableInv(run, i - 1);
      var step := StepOfRun(run, i - 1);
      StepKeepsInv(run[i - 1], step);
    }
  }

  // ---- Theorems

  /** No assertion in the code fails and no handle is used out of turn, in any interleaving. */
  lemma NoStepGoesWrong(run: seq<State>, i: nat, step: Step)
    requires IsRun(run) && i < |run| && Enabled(run[i], step)
    ensures Safe(run[i], step)
  {
    hide IsRun;
    hide Inv;
    ReachableInv(run, i);
    InvSafe(run[i], step);
  }

  /** A handle is recycled once per occupancy, by exactly one thread: whenever it is neither in the cache
      nor referenced, it is in the bin, being filled, or exactly one thread is about to recycle it. */
  lemma RecycledExactlyOnce(run: seq<State>, i: nat, h: HandleId)
    requires IsRun(run) && i < |run| && h < |run[i].handles|
    ensures var s := run[i]; var x := s.handles[h];
            && (Idling(x) && x.home.Occupied? <==> HasDuty(s.duty, h))
            && (forall t, u | t in s.duty && u in s.duty && s.duty[t] == s.duty[u] :: t == u)
            && (x.home.Bin? ==> Idling(x))
  {
    hide IsRun;
    ReachableInv(run, i);
  }

  /** Only storing the flags of the handle being filled makes a handle occupied. */
  lemma HomeStep(s: State, step: Step, h: HandleId)
    requires Enabled(s, step) && Safe(s, step) && h < |s.handles| && !s.handles[h].home.Occupied?
    requires step.Store? ==> s.stage.h != h
    ensures h < |Apply(s, step).handles| && !Apply(s, step).handles[h].home.Occupied?
  {
    hide Enabled, Safe, Apply;
    if Plain(step) {
      HomePlain(s, step, h);
    } else {
      HomeReferences(s, step, h);
    }
  }

  lemma HomePlain(s: State, step: Step, h: HandleId)
    requires Enabled(s, step) && Safe(s, step) && Plain(step) && h < |s.handles| && !s.handles[h].home.Occupied?
    ensures h < |Apply(s, step).handles| && !Apply(s, step).handles[h].home.Occupied?
  {
    hide DoRef, DoCheckKey, DoBeginRelease, DoDecrement, DoRecycleHandle, DoEndOp, DoTryEvict, DoRefHeld,
         DoUnsetInCache, DoStore, Move;
  }

  lemma HomeReferences(s: State, step: Step, h: HandleId)
    requires Enabled(s, step) && Safe(s, step) && !Plain(step) && h < |s.handles| && !s.handles[h].home.Occupied?
    requires step.Store? ==> s.stage.h != h
    ensures h < |Apply(s, step).handles| && !Apply(s, step).handles[h].home.Occupied?
  {
    hide DoFind, DoEraseEvicted, DoEraseKey, DoPick, DoFill, DoEraseExisting, DoLinkKey, DoSweepNext, DoClearUsage,
         Move;
  }

  /** From the bin a handle gets back into use only by being filled. */
  lemma {:induction false} FilledInBetween(run: seq<State>, i: nat, j: nat, h: HandleId) returns (m: nat)
    requires IsRun(run) && i <= j < |run| && h < |run[i].handles| && run[i].handles[h].home.Bin?
    requires h < |run[j].handles| && run[j].handles[h].home.Occupied?
    ensures i <= m <= j && h < |run[m].handles| && run[m].handles[h].home.Filling?
    decreases j - i
  {
    hide IsRun, Inv, Enabled, Safe, Apply;
    var step := StepOf(run, i);
    ReachableInv(run, i);
    StoresFilling(run[i], step);
    HomeStep(run[i], step, h);
    if run[i + 1].handles[h].home.Filling? {
      m := i + 1;
    } else {
      m := FilledInBetween(run, i + 1, j, h);
    }
  }

  lemma StepOf(run: seq<State>, i: nat) returns (step: Step)
    requires IsRun(run) && i + 1 < |run|
    ensures Enabled(run[i], step) && Safe(run[i], step) && run[i + 1] == Apply(run[i], step)
  {
    assert Steps(run[i], run[i + 1]);
    step :| Enabled(run[i], step) && Safe(run[i], step) && run[i + 1] == Apply(run[i], step);
  }

  lemma StoresFilling(s: State, step: Step)
    requires Inv(s) && Enabled(s, step)
    ensures step.Store? ==> s.stage.h < |s.handles| && s.handles[s.stage.h].home.Filling?
  {
    if step.Store? {
      hide Inv;
      StageFilling(s);
    }
  }

  /** Over every run a handle is recycled once per occupancy: before it is recycled again, it is filled again. */
  lemma RecycledOncePerOccupancy(run: seq<State>, i: nat, j: nat, t: Thread, u: Thread) returns (m: nat)
    requires IsRun(run) && i < j < |run| && Enabled(run[i], RecycleHandle(t)) && Enabled(run[j], RecycleHandle(u))
    requires Safe(run[i], RecycleHandle(t)) && run[i + 1] == Apply(run[i], RecycleHandle(t))
    requires run[i].duty[t] == run[j].duty[u]
    ensures i < m <= j && run[i].duty[t] < |run[m].handles| && run[m].handles[run[i].duty[t]].home.Filling?
  {
    hide IsRun, Inv;
    var h := run[i].duty[t];
    assert run[i + 1].handles[h].home.Bin?;
    ReachableInv(run, j);
    DutyAlive(run[j], u);
    m := FilledInBetween(run, i + 1, j, h);
  }

  /** The duty falls to the one step that leaves the handle with neither in-cache bit nor reference. */
  lemma DutyComesFromLastStep(s: State, step: Step, t: Thread)
    requires Enabled(s, step) && Safe(s, step) && t !in s.duty && t in Apply(s, step).duty
    ensures var h := Apply(s, step).duty[t];
            && h < |s.handles| && !Idling(s.handles[h]) && h < |Apply(s, step).handles|
            && Idling(Apply(s, step).handles[h])
  {
    hide DoFind, DoRef, DoCheckKey, DoBeginRelease, DoDecrement, DoRecycleHandle, DoEndOp, DoTryEvict, DoClearUsage,
         DoRefHeld, DoEraseEvicted, DoEraseKey, DoUnsetInCache, DoPick, DoFill, DoStore, DoEraseExisting, DoLinkKey,
         DoSweepNext;
    match step {
      case Decrement(u) => DecrementDuty(s, u, t);
      case TryEvict(u, h) => TryEvictDuty(s, u, h, t);
      case UnsetInCache(u) => UnsetInCacheDuty(s, u, t);
      case _ => NoNewDuty(s, step, t);
    }
  }

  lemma DecrementDuty(s: State, u: Thread, t: Thread)
    requires Local(u) in s.at && s.at[Local(u)] < |s.handles| && s.handles[s.at[Local(u)]].flags.refs > 0
    requires t !in s.duty && t in DoDecrement(s, u).duty
    ensures var s' := DoDecrement(s, u); var h := s'.duty[t];
            h < |s.handles| && !Idling(s.handles[h]) && h < |s'.handles| && Idling(s'.handles[h])
  {
  }

  lemma TryEvictDuty(s: State, u: Thread, h: HandleId, t: Thread)
    requires h < |s.handles| && t !in s.duty && t in DoTryEvict(s, u, h).duty
    ensures var s' := DoTryEvict(s, u, h);
            s'.duty[t] == h && !Idling(s.handles[h]) && h < |s'.handles| && Idling(s'.handles[h])
  {
  }

  lemma UnsetInCacheDuty(s: State, u: Thread, t: Thread)
    requires s.stage.Unset? && s.stage.h < |s.handles| && t !in s.duty && t in DoUnsetInCache(s, u).duty
    ensures var s' := DoUnsetInCache(s, u); var h := s'.duty[t];
            h < |s.handles| && !Idling(s.handles[h]) && h < |s'.handles| && Idling(s'.handles[h])
  {
  }

  /** Steps that leave references and duties alone. */
  predicate Plain(step: Step) {
    step.Find? || step.ClearUsage? || step.LockRecycle? || step.UnlockRecycle? || step.BeginOp? ||
    step.EraseEvicted? || step.EraseKey? || step.Pick? ||
    step.Fill? || step.EraseExisting? || step.LinkKey? || step.ClearTable? || step.SweepNext?
  }

  lemma PlainKeeps(s: State, step: Step)
    requires Plain(step) && Enabled(s, step) && Safe(s, step)
    ensures Keeps(s, Apply(s, step))
  {
    hide DoFind, DoRef, DoCheckKey, DoBeginRelease, DoDecrement, DoRecycleHandle, DoEndOp, DoTryEvict, DoClearUsage,
         DoRefHeld, DoEraseEvicted, DoEraseKey, DoUnsetInCache, DoPick, DoFill, DoStore, DoEraseExisting, DoLinkKey,
         DoSweepNext;
    match step {
      case Find(t, k) => FindKeeps(s, t, k);
      case ClearUsage(_, h) => ClearUsageKeeps(s, h);
      case EraseEvicted => EraseEvictedKeeps(s);
      case EraseKey(k) => EraseKeyKeeps(s, k);
      case Pick(_, h, k, c, hold) => PickKeeps(s, h, k, c, hold);
      case Fill => FillKeeps(s);
      case EraseExisting => EraseExistingKeeps(s);
      case LinkKey => LinkKeyKeeps(s);
      case SweepNext => SweepNextKeeps(s);
      case _ =>
    }
  }

  predicate Keeps(s: State, s': State) {
    s'.at == s.at && s'.clientKey == s.clientKey && s'.duty == s.duty
  }

  lemma FindKeeps(s: State, t: Thread, k: Key)
    ensures Keeps(s, DoFind(s, t, k))
  {
  }

  lemma ClearUsageKeeps(s: State, h: HandleId)
    requires h < |s.handles|
    ensures Keeps(s, DoClearUsage(s, h))
  {
  }

  lemma EraseEvictedKeeps(s: State)
    requires s.stage.Evicted? && s.stage.h < |s.handles|
    ensures Keeps(s, DoEraseEvicted(s))
  {
  }

  lemma EraseKeyKeeps(s: State, k: Key)
    requires k in s.table
    ensures Keeps(s, DoEraseKey(s, k))
  {
  }

  lemma PickKeeps(s: State, h: HandleId, k: Key, c: nat, hold: bool)
    requires h <= |s.handles|
    ensures Keeps(s, DoPick(s, h, k, c, hold))
  {
  }

  lemma FillKeeps(s: State)
    requires s.stage.Picked? && s.stage.h < |s.handles|
    ensures Keeps(s, DoFill(s))
  {
  }

  lemma EraseExistingKeeps(s: State)
    requires s.stage.Stored? && s.stage.h < |s.handles|
    ensures Keeps(s, DoEraseExisting(s))
  {
  }

  lemma LinkKeyKeeps(s: State)
    requires s.stage.Link? && s.stage.h < |s.handles|
    ensures Keeps(s, DoLinkKey(s))
  {
  }

  lemma SweepNextKeeps(s: State)
    requires s.stage.Sweep?
    ensures Keeps(s, DoSweepNext(s))
  {
  }

  /** Other steps give nobody the duty to recycle. */
  lemma NoNewDuty(s: State, step: Step, t: Thread)
    requires Enabled(s, step) && Safe(s, step) && !step.Decrement? && !step.TryEvict? && !step.UnsetInCache?
    requires t !in s.duty
    ensures t !in Apply(s, step).duty
  {
    if Plain(step) {
      hide DoFind, DoRef, DoCheckKey, DoBeginRelease, DoDecrement, DoRecycleHandle, DoEndOp, DoTryEvict, DoClearUsage,
           DoRefHeld, DoEraseEvicted, DoEraseKey, DoUnsetInCache, DoPick, DoFill, DoStore, DoEraseExisting,
           DoLinkKey, DoSweepNext;
      PlainKeeps(s, step);
    } else {
      hide DoFind, DoEraseEvicted, DoEraseKey, DoPick, DoFill, DoEraseExisting, DoLinkKey, DoSweepNext, DoDecrement,
           DoTryEvict, DoUnsetInCache, Move;
    }
  }

  /** `usage_` is the total charge of the handles that are not in the bin whenever the mutex is free. */
  lemma UsageIsTotal(run: seq<State>, i: nat)
    requires IsRun(run) && i < |run| && run[i].mutex.None?
    ensures run[i].usage == Total(run[i].handles)
    ensures forall h | 0 <= h < |run[i].handles| :: !run[i].handles[h].home.Filling?
  {
    hide IsRun;
    ReachableInv(run, i);
    FreeMeansReady(run[i]);
  }

  /** A client's reference is to a handle that still holds the key it asked for, until it is released. */
  lemma LookupResultStays(run: seq<State>, i: nat, id: nat)
    requires IsRun(run) && i < |run| && Client(id) in run[i].at
    ensures var s := run[i]; var h := s.at[Client(id)];
            && id in s.clientKey && h < |s.handles| && s.handles[h].key == s.clientKey[id]
            && s.handles[h].flags.refs > 0 && s.handles[h].home.Occupied?
  {
    hide IsRun;
    hide Inv;
    ReachableInv(run, i);
    ClientAlive(run[i], id);
  }

  /** A client keeps the same handle and key as long as it does not release them. */
  lemma ClientUndisturbed(s: State, step: Step, id: nat)
    requires Enabled(s, step) && Safe(s, step) && Client(id) in s.at && id in s.clientKey
    requires !(step.BeginRelease? && step.id == id)
    ensures var s' := Apply(s, step);
            && Client(id) in s'.at && s'.at[Client(id)] == s.at[Client(id)] && id in s'.clientKey
            && s'.clientKey[id] == s.clientKey[id]
  {
    if Plain(step) {
      hide DoFind, DoRef, DoCheckKey, DoBeginRelease, DoDecrement, DoRecycleHandle, DoEndOp, DoTryEvict, DoClearUsage,
           DoRefHeld, DoEraseEvicted, DoEraseKey, DoUnsetInCache, DoPick, DoFill, DoStore, DoEraseExisting,
           DoLinkKey, DoSweepNext;
      PlainKeeps(s, step);
    } else {
      ClientsKept(s, step, id);
    }
  }

  /** Steps on references leave those of other clients alone. */
  lemma ClientsKept(s: State, step: Step, id: nat)
    requires Enabled(s, step) && Safe(s, step) && !Plain(step) && Client(id) in s.at && id in s.clientKey
    requires !(step.BeginRelease? && step.id == id)
    ensures var s' := Apply(s, step);
            && Client(id) in s'.at && s'.at[Client(id)] == s.at[Client(id)] && id in s'.clientKey
            && s'.clientKey[id] == s.clientKey[id]
  {
    hide DoFind, DoEraseEvicted, DoEraseKey, DoPick, DoFill, DoEraseExisting, DoLinkKey, DoSweepNext;
  }

  /** A step of the run that does not begin to release the reference. */
  ghost predicate KeepsReference(s: State, s': State, id: nat) {
    exists step :: Enabled(s, step) && Safe(s, step) && s' == Apply(s, step) && !(step.BeginRelease? && step.id == id)
  }

  lemma {:induction false} ReferenceOverRun(run: seq<State>, i: nat, j: nat, id: nat)
    requires IsRun(run) && i <= j < |run| && Client(id) in run[i].at && id in run[i].clientKey
    requires forall m | i <= m < j :: KeepsReference(run[m], run[m + 1], id)
    ensures Client(id) in run[j].at && run[j].at[Client(id)] == run[i].at[Client(id)]
    ensures id in run[j].clientKey && run[j].clientKey[id] == run[i].clientKey[id]
    decreases j
  {
    hide IsRun, Enabled, Safe, Apply;
    if i < j {
      ReferenceOverRun(run, i, j - 1, id);
      assert KeepsReference(run[j - 1], run[j], id);
      var step :| Enabled(run[j - 1], step) && Safe(run[j - 1], step) && run[j] == Apply(run[j - 1], step)
                  && !(step.BeginRelease? && step.id == id);
      ClientUndisturbed(run[j - 1], step, id);
    }
  }

  /** A lookup of `k` whose key check hands a handle to client `id` in step `i`: until the client begins to release it,
      whatever else runs, the client has that handle, it is occupied and referenced, and its key is `k`. */
  lemma LookupStays(run: seq<State>, i: nat, j: nat, t: Thread, id: nat)
    requires IsRun(run) && i + 1 <= j < |run| && Enabled(run[i], CheckKey(t, id)) && Safe(run[i], CheckKey(t, id))
    requires run[i + 1] == Apply(run[i], CheckKey(t, id)) && Client(id) in run[i + 1].at
    requires forall m | i + 1 <= m < j :: KeepsReference(run[m], run[m + 1], id)
    ensures var h, s := run[i].at[Local(t)], run[j];
            && Client(id) in s.at && s.at[Client(id)] == h && h < |s.handles|
            && s.handles[h].key == run[i].pc[t].k && s.handles[h].home.Occupied? && s.handles[h].flags.refs > 0
  {
    hide IsRun, KeepsReference;
    assert run[i + 1].clientKey[id] == run[i].pc[t].k && run[i + 1].at[Client(id)] == run[i].at[Local(t)];
    hide Enabled, Safe, Apply;
    ReferenceOverRun(run, i + 1, j, id);
    LookupResultStays(run, j, id);
  }

  /** Whenever the mutex is free, the table maps exactly the handles with the in-cache bit. */
  lemma TableIsInCache(run: seq<State>, i: nat)
    requires IsRun(run) && i < |run| && run[i].mutex.None?
    ensures var s := run[i];
            && (forall k | k in s.table ::
                  s.table[k] < |s.handles| && s.handles[s.table[k]].key == k && s.handles[s.table[k]].flags.inCache)
            && (forall h | 0 <= h < |s.handles| && s.handles[h].flags.inCache ::
                  s.handles[h].key in s.table && s.table[s.handles[h].key] == h)
  {
    hide IsRun;
    ReachableInv(run, i);
    FreeMeansReady(run[i]);
  }

  /** Each count is the number of references held, so a referenced handle is never in the bin. */
  lemma CountsAreHolders(run: seq<State>, i: nat, h: HandleId)
    requires IsRun(run) && i < |run| && h < |run[i].handles|
    ensures run[i].handles[h].flags.refs == |Holders(run[i].at, h)|
    ensures run[i].handles[h].home.Bin? ==> Holders(run[i].at, h) == {}
  {
    hide IsRun;
    ReachableInv(run, i);
  }
}
