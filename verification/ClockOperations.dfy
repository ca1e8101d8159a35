/** What the operations of the CLOCK cache shard achieve, over every run and whatever other threads do meanwhile. */
module ClockOperations {
  import opened Options
  import opened ClockCache
  import opened ClockInvariant
  import opened ClockTheorems

  // ---- Runs with their steps

  ghost predicate StepsBy(s: State, step: Step, s': State) {
    Enabled(s, step) && Safe(s, step) && s' == Apply(s, step)
  }

  ghost predicate RunBy(run: seq<State>, steps: seq<Step>) {
    && |run| == |steps| + 1 && Init(run[0])
    && forall i | 0 <= i < |steps| :: StepsBy(run[i], steps[i], run[i + 1])
  }

  lemma RunByIsRun(run: seq<State>, steps: seq<Step>)
    requires RunBy(run, steps)
    ensures IsRun(run)
  {
    hide Enabled, Safe, Apply, Init;
    forall i | 0 <= i < |run| - 1 ensures Steps(run[i], run[i + 1]) {
      assert StepsBy(run[i], steps[i], run[i + 1]);
    }
  }

  lemma RunByInv(run: seq<State>, steps: seq<Step>, i: nat)
    requires RunBy(run, steps) && i < |run|
    ensures Inv(run[i])
  {
    RunByIsRun(run, steps);
    ReachableInv(run, i);
  }

  // ---- Lookup

  /** The thread has found a handle for its key and may still fail. */
  predicate Looking(s: State, t: Thread) {
    t in s.pc && (s.pc[t].Found? || s.pc[t].Reffed?)
  }

  /** Until the thread takes its next step it looks for the same key with the same handle. */
  lemma StillLooking(s: State, step: Step, t: Thread)
    requires Enabled(s, step) && Safe(s, step) && Looking(s, t)
    requires step != Ref(t) && !(step.CheckKey? && step.t == t)
    ensures var s' := Apply(s, step);
            && t in s'.pc && s'.pc[t] == s.pc[t] && (Local(t) in s'.at <==> Local(t) in s.at)
            && (Local(t) in s.at ==> s'.at[Local(t)] == s.at[Local(t)])
  {
    if Plain(step) {
      PlainLooking(s, step, t);
    } else if Referring(step) {
      ReferringLooking(s, step, t);
    } else {
      OwnerLooking(s, step, t);
    }
  }

  lemma PlainLooking(s: State, step: Step, t: Thread)
    requires Enabled(s, step) && Safe(s, step) && Looking(s, t) && Plain(step)
    ensures var s' := Apply(s, step); s'.at == s.at && t in s'.pc && s'.pc[t] == s.pc[t]
  {
    PlainKeeps(s, step);
  }

  /** The steps of Lookup, Ref, Release and Unref. */
  predicate Referring(step: Step) {
    step.Ref? || step.CheckKey? || step.BeginRelease? || step.Decrement? || step.RefHeld?
  }

  lemma ReferringLooking(s: State, step: Step, t: Thread)
    requires Enabled(s, step) && Safe(s, step) && Looking(s, t) && Referring(step)
    requires step != Ref(t) && !(step.CheckKey? && step.t == t)
    ensures var s' := Apply(s, step);
            && t in s'.pc && s'.pc[t] == s.pc[t] && (Local(t) in s'.at <==> Local(t) in s.at)
            && (Local(t) in s.at ==> s'.at[Local(t)] == s.at[Local(t)])
  {
  }

  lemma OwnerLooking(s: State, step: Step, t: Thread)
    requires Enabled(s, step) && Safe(s, step) && Looking(s, t) && !Plain(step) && !Referring(step)
    ensures var s' := Apply(s, step);
            && t in s'.pc && s'.pc[t] == s.pc[t] && (Local(t) in s'.at <==> Local(t) in s.at)
            && (Local(t) in s.at ==> s'.at[Local(t)] == s.at[Local(t)])
  {
  }

  lemma FindStep(s: State, t: Thread, k: Key, s': State)
    requires Inv(s) && StepsBy(s, Find(t, k), s')
    ensures s'.at == s.at && t in s'.pc && s'.pc[t] == if k in s.table then Found(k, s.table[k]) else Idle
    ensures k in s.table ==> s.table[k] < |s.handles|
  {
    StageBound(s);
  }

  lemma RefStep(s: State, t: Thread, s': State)
    requires StepsBy(s, Ref(t), s')
    ensures t in s.pc && s.pc[t].Found? && s.pc[t].h < |s.handles| && t in s'.pc
    ensures var h := s.pc[t].h;
            if s.handles[h].flags.inCache
            then s'.pc[t] == Reffed(s.pc[t].k) && Local(t) in s'.at && s'.at[Local(t)] == h
                 && s'.handles[h].flags.refs == s.handles[h].flags.refs + 1
            else s'.pc[t] == Idle && s'.at == s.at && s'.handles == s.handles
  {
  }

  lemma CheckKeyStep(s: State, t: Thread, id: nat, s': State)
    requires StepsBy(s, CheckKey(t, id), s')
    ensures t in s.pc && s.pc[t].Reffed? && Local(t) in s.at && s.at[Local(t)] < |s.handles| && t in s'.pc
    ensures Client(id) !in s.at && !Looking(s', t)
    ensures Client(id) in s'.at <==> s.handles[s.at[Local(t)]].key == s.pc[t].k
    ensures Client(id) in s'.at ==>
              s'.at[Client(id)] == s.at[Local(t)] && id in s'.clientKey && s'.clientKey[id] == s.pc[t].k
              && s'.handles == s.handles
  {
  }

  lemma NextLooking(s: State, step: Step, s': State, t: Thread)
    requires StepsBy(s, step, s') && Looking(s, t)
    requires if s.pc[t].Found? then step != Ref(t) else !(step.CheckKey? && step.t == t)
    ensures t in s'.pc && s'.pc[t] == s.pc[t]
    ensures Local(t) in s.at ==> Local(t) in s'.at && s'.at[Local(t)] == s.at[Local(t)]
  {
    NotYet(s, step, t);
    hide Apply, Enabled, Safe;
    StillLooking(s, step, t);
  }

  lemma NotYet(s: State, step: Step, t: Thread)
    requires Enabled(s, step) && Looking(s, t)
    requires if s.pc[t].Found? then step != Ref(t) else !(step.CheckKey? && step.t == t)
    ensures step != Ref(t) && !(step.CheckKey? && step.t == t)
  {
  }

  /** A lookup that begins in step `f` and ends with step `e - 1` fails if the key is not in the table, or else if its
      handle has lost the in-cache bit by step `r`, or else if the handle has another key in the end; otherwise the
      client gets the handle, no matter who else holds it. */
  ghost predicate Outcome(run: seq<State>, steps: seq<Step>, f: nat, r: nat, e: nat, t: Thread, k: Key)
    requires |run| == |steps| + 1 && f < e < |run|
  {
    if k !in run[f].table then e == f + 1 && run[e].at == run[f].at
    else
      var h := run[f].table[k];
      && f < r < e && steps[r] == Ref(t) && h < |run[r].handles|
      && if !run[r].handles[h].flags.inCache then e == r + 1 && run[e].at == run[r].at
         else
           && r + 1 < e && steps[e - 1].CheckKey? && steps[e - 1].t == t && h < |run[e - 1].handles|
           && var id := steps[e - 1].id;
              if run[e - 1].handles[h].key == k
              then Client(id) in run[e].at && run[e].at[Client(id)] == h && id in run[e].clientKey
                   && run[e].clientKey[id] == k
              else Client(id) !in run[e].at
  }

  lemma LookupExactly(run: seq<State>, steps: seq<Step>, f: nat, e: nat, t: Thread, k: Key) returns (r: nat)
    requires RunBy(run, steps) && f < e < |run| && steps[f] == Find(t, k)
    requires !Looking(run[e], t) && forall m | f < m < e :: Looking(run[m], t)
    ensures Outcome(run, steps, f, r, e, t, k)
  {
    hide StepsBy, Inv, Init;
    RunByInv(run, steps, f);
    assert StepsBy(run[f], steps[f], run[f + 1]);
    FindStep(run[f], t, k, run[f + 1]);
    r := f + 1;
    if k in run[f].table {
      var h := run[f].table[k];
      while steps[r] != Ref(t)
        invariant f < r < e && t in run[r].pc && run[r].pc[t] == Found(k, h)
        decreases e - r
      {
        NextLooking(run[r], steps[r], run[r + 1], t);
        r := r + 1;
      }
      assert StepsBy(run[r], steps[r], run[r + 1]);
      RefStep(run[r], t, run[r + 1]);
      if run[r].handles[h].flags.inCache {
        var c := r + 1;
        while !(steps[c].CheckKey? && steps[c].t == t)
          invariant r < c < e && t in run[c].pc && run[c].pc[t] == Reffed(k)
          invariant Local(t) in run[c].at && run[c].at[Local(t)] == h
          decreases e - c
        {
          NextLooking(run[c], steps[c], run[c + 1], t);
          c := c + 1;
        }
        assert StepsBy(run[c], steps[c], run[c + 1]);
        CheckKeyStep(run[c], t, steps[c].id, run[c + 1]);
      }
    }
  }

  // ---- Operations under the mutex

  /** What steps without the mutex leave alone. */
  ghost predicate SameShard(s: State, s': State, t: Thread) {
    && s'.table == s.table && s'.stage == s.stage && s'.mutex == s.mutex && s'.usage == s.usage
    && |s'.handles| == |s.handles|
    && (forall h | 0 <= h < |s.handles| ::
          && s'.handles[h].key == s.handles[h].key && s'.handles[h].charge == s.handles[h].charge
          && s'.handles[h].home == s.handles[h].home
          && s'.handles[h].flags.inCache == s.handles[h].flags.inCache)
    && (t in s.pc ==> t in s'.pc && s'.pc[t] == s.pc[t]) && SamePlace(s, s', t)
  }

  ghost predicate SamePlace(s: State, s': State, t: Thread) {
    && (Local(t) in s'.at <==> Local(t) in s.at) && (Local(t) in s.at ==> s'.at[Local(t)] == s.at[Local(t)])
    && (t in s'.duty <==> t in s.duty) && (t in s.duty ==> s'.duty[t] == s.duty[t])
  }

  lemma FreeStep(s: State, step: Step, s': State, t: Thread)
    requires StepsBy(s, step, s') && Owns(s, t) && (step.Find? || Referring(step))
    ensures SameShard(s, s', t)
  {
    if step.Find? {
      FindFree(s, step, s', t);
    } else if step.Ref? {
      RefFree(s, step, s', t);
    } else if step.CheckKey? {
      CheckKeyFree(s, step, s', t);
    } else {
      ReleaseFree(s, step, s', t);
    }
  }

  lemma FindFree(s: State, step: Step, s': State, t: Thread)
    requires StepsBy(s, step, s') && Owns(s, t) && step.Find?
    ensures SameShard(s, s', t)
  {
  }

  lemma RefFree(s: State, step: Step, s': State, t: Thread)
    requires StepsBy(s, step, s') && Owns(s, t) && step.Ref?
    ensures SameShard(s, s', t)
  {
  }

  lemma CheckKeyFree(s: State, step: Step, s': State, t: Thread)
    requires StepsBy(s, step, s') && Owns(s, t) && step.CheckKey?
    ensures SameShard(s, s', t)
  {
  }

  lemma ReleaseFree(s: State, step: Step, s': State, t: Thread)
    requires StepsBy(s, step, s') && Owns(s, t) && (step.BeginRelease? || step.Decrement? || step.RefHeld?)
    ensures SameShard(s, s', t)
  {
  }

  /** The steps by which an operation goes on once it has begun to change the table. */
  predicate GoesOn(step: Step, t: Thread) {
    || step.EraseEvicted? || step.Fill? || step.EraseExisting? || step.LinkKey? || step.SweepNext?
    || step == UnsetInCache(t) || step == Store(t) || step == RecycleHandle(t)
  }

  /** Meanwhile nobody else gets the mutex. */
  lemma OwnerGoesOn(s: State, step: Step, t: Thread)
    requires Inv(s) && Owns(s, t) && !s.stage.Ready? && Enabled(s, step)
    ensures step.Find? || Referring(step) || GoesOn(step, t)
  {
    hide Inv;
    if (step.RecycleHandle? || step.UnlockRecycle?) && step.t in s.pc {
      LockedOwns(s, step.t);
    }
  }

  lemma LockedOwns(s: State, u: Thread)
    requires Inv(s) && u in s.pc
    ensures s.pc[u].RecycleLocked? ==> s.stage.Ready?
  {
    hide Data;
    assert ViewOf(s, u).Ok();
  }

  datatype Operation =
    | Inserts(h: HandleId, k: Key, c: nat, hold: bool)
    | Erases(k: Key)
    | Evicts(h: HandleId)
    | Clears

  /** The entry is in its handle, and a caller that asked for a reference has one. */
  ghost predicate Entered(s: State, t: Thread, h: HandleId, k: Key, c: nat, hold: bool) {
    && h < |s.handles| && s.handles[h].key == k && s.handles[h].charge == c && s.handles[h].flags.inCache
    && s.handles[h].home.Occupied? && (hold <==> Local(t) in s.at) && (hold ==> s.at[Local(t)] == h)
  }

  /** What the table had for the key is no longer in the cache. */
  ghost predicate Replaced(s0: State, s: State, k: Key) {
    k in s0.table ==> s0.table[k] < |s.handles| && !s.handles[s0.table[k]].flags.inCache
  }

  /** How far an insert that began in `s0` has come. */
  ghost predicate InsertAt(s0: State, s: State, t: Thread, h: HandleId, k: Key, c: nat, hold: bool) {
    match s.stage
    case Picked(h', k', c', hold') =>
      h' == h && k' == k && c' == c && hold' == hold && s.table == s0.table && Local(t) !in s.at
    case Filled(h', hold') =>
      && h' == h < |s.handles| && hold' == hold && s.table == s0.table && Local(t) !in s.at
      && s.handles[h].key == k && s.handles[h].charge == c
    case Stored(h') => h' == h && s.table == s0.table && Entered(s, t, h, k, c, hold)
    case Unset(g, next) =>
      && next == ToLink(h) && k in s0.table && g == s0.table[k] && s.table == s0.table - {k}
      && Entered(s, t, h, k, c, hold)
    case Recycle(next) =>
      next == ToLink(h) && s.table == s0.table - {k} && Entered(s, t, h, k, c, hold) && Replaced(s0, s, k)
    case Link(h') => h' == h && s.table == s0.table - {k} && Entered(s, t, h, k, c, hold) && Replaced(s0, s, k)
    case Ready => s.table == s0.table[k := h] && Entered(s, t, h, k, c, hold) && Replaced(s0, s, k)
    case _ => false
  }

  ghost predicate EraseAt(s0: State, s: State, k: Key) {
    && s.table == s0.table - {k}
    && match s.stage
       case Unset(g, next) => next == ToReady && k in s0.table && g == s0.table[k]
       case Recycle(next) => next == ToReady && Replaced(s0, s, k)
       case Ready => Replaced(s0, s, k)
       case _ => false
  }

  ghost predicate EvictAt(s0: State, s: State, t: Thread, h: HandleId) {
    && h < |s0.handles| == |s.handles| && s.handles[h].key == s0.handles[h].key
    && s.handles[h].charge == s0.handles[h].charge
    && match s.stage
       case Evicted(h') => h' == h && s.table == s0.table && s.usage == s0.usage && t in s.duty && s.duty[t] == h
       case Recycle(next) =>
         && next == ToReady && s.table == s0.table - {s0.handles[h].key} && s.usage == s0.usage
         && t in s.duty && s.duty[t] == h
       case Ready =>
         && s.table == s0.table - {s0.handles[h].key} && s.usage == s0.usage - s0.handles[h].charge
         && s.handles[h].home.Bin?
       case _ => false
  }

  ghost predicate ClearAt(s: State) {
    && s.table == map[]
    && match s.stage
       case Sweep(_) => true
       case Unset(_, next) => next.ToSweep?
       case Recycle(next) => next.ToSweep?
       case Ready => true
       case _ => false
  }

  ghost predicate Progress(op: Operation, s0: State, s: State, t: Thread) {
    && Owns(s, t)
    && match op
       case Inserts(h, k, c, hold) => InsertAt(s0, s, t, h, k, c, hold)
       case Erases(k) => EraseAt(s0, s, k)
       case Evicts(h) => EvictAt(s0, s, t, h)
       case Clears => ClearAt(s)
  }

  lemma FreeProgress(op: Operation, s0: State, s: State, s': State, t: Thread)
    requires Progress(op, s0, s, t) && SameShard(s, s', t)
    ensures Progress(op, s0, s', t)
  {
  }

  /** The effect of a step by which an operation goes on. */
  ghost predicate Effect(s: State, s': State, t: Thread) {
    match s.stage
    case Evicted(h) => h < |s.handles| && s' == DoEraseEvicted(s)
    case Recycle(next) =>
      && t in s.duty && s.duty[t] < |s.handles| && Idling(s.handles[s.duty[t]]) && s.mutex == Some(t)
      && s' == DoRecycleHandle(s, t)
    case Unset(h, next) => h < |s.handles| && (next.ToLink? ==> h != next.h) && s' == DoUnsetInCache(s, t)
    case Picked(h, k, c, hold) => h < |s.handles| && s' == DoFill(s)
    case Filled(h, hold) => h < |s.handles| && s' == DoStore(s, t)
    case Stored(h) => h < |s.handles| && s' == DoEraseExisting(s)
    case Link(h) => h < |s.handles| && s' == DoLinkKey(s)
    case Sweep(i) => s' == DoSweepNext(s)
    case Ready => true
  }

  lemma GoesOnEffect(s: State, step: Step, s': State, t: Thread)
    requires Inv(s) && Owns(s, t) && StepsBy(s, step, s') && GoesOn(step, t)
    ensures Effect(s, s', t)
  {
    hide Inv, DoEraseEvicted, DoRecycleHandle, DoUnsetInCache, DoFill, DoStore, DoEraseExisting, DoLinkKey, DoSweepNext;
    UnsetApart(s);
  }

  lemma UnsetApart(s: State)
    requires Inv(s)
    ensures s.stage.Unset? && s.stage.next.ToLink? ==> s.stage.h != s.stage.next.h
  {
  }

  lemma EffectOwner(s: State, s': State, t: Thread)
    requires Owns(s, t) && !s.stage.Ready? && Effect(s, s', t)
    ensures Owns(s', t)
  {
  }

  lemma InsertProgress(s0: State, s: State, s': State, t: Thread, h: HandleId, k: Key, c: nat, hold: bool)
    requires Owns(s, t) && !s.stage.Ready? && Effect(s, s', t) && InsertAt(s0, s, t, h, k, c, hold)
    ensures InsertAt(s0, s', t, h, k, c, hold)
  {
    if s.stage.Picked? || s.stage.Filled? {
      InsertFills(s0, s, s', t, h, k, c, hold);
    } else if s.stage.Stored? || s.stage.Link? {
      InsertLinks(s0, s, s', t, h, k, c, hold);
    } else {
      InsertReplaces(s0, s, s', t, h, k, c, hold);
    }
  }

  lemma InsertFills(s0: State, s: State, s': State, t: Thread, h: HandleId, k: Key, c: nat, hold: bool)
    requires (s.stage.Picked? || s.stage.Filled?) && Effect(s, s', t) && InsertAt(s0, s, t, h, k, c, hold)
    ensures InsertAt(s0, s', t, h, k, c, hold)
  {
  }

  lemma InsertLinks(s0: State, s: State, s': State, t: Thread, h: HandleId, k: Key, c: nat, hold: bool)
    requires (s.stage.Stored? || s.stage.Link?) && Effect(s, s', t) && InsertAt(s0, s, t, h, k, c, hold)
    ensures InsertAt(s0, s', t, h, k, c, hold)
  {
  }

  lemma InsertReplaces(s0: State, s: State, s': State, t: Thread, h: HandleId, k: Key, c: nat, hold: bool)
    requires (s.stage.Unset? || s.stage.Recycle?) && Effect(s, s', t) && InsertAt(s0, s, t, h, k, c, hold)
    ensures InsertAt(s0, s', t, h, k, c, hold)
  {
  }

  lemma EraseProgress(s0: State, s: State, s': State, t: Thread, k: Key)
    requires Owns(s, t) && !s.stage.Ready? && Effect(s, s', t) && EraseAt(s0, s, k)
    ensures EraseAt(s0, s', k)
  {
  }

  lemma EvictProgress(s0: State, s: State, s': State, t: Thread, h: HandleId)
    requires Owns(s, t) && !s.stage.Ready? && Effect(s, s', t) && EvictAt(s0, s, t, h)
    ensures EvictAt(s0, s', t, h)
  {
  }

  lemma ClearProgress(s: State, s': State, t: Thread)
    requires Owns(s, t) && !s.stage.Ready? && Effect(s, s', t) && ClearAt(s)
    ensures ClearAt(s')
  {
  }

  lemma StepProgress(op: Operation, s0: State, s: State, step: Step, s': State, t: Thread)
    requires Inv(s) && StepsBy(s, step, s') && Progress(op, s0, s, t) && !s.stage.Ready?
    ensures Progress(op, s0, s', t)
  {
    hide Inv, InsertAt, EraseAt, EvictAt, ClearAt, Effect, SameShard;
    GoingOn(s, step, s', t);
    if step.Find? || Referring(step) {
      FreeStep(s, step, s', t);
      FreeProgress(op, s0, s, s', t);
    } else {
      GoesOnEffect(s, step, s', t);
      EffectOwner(s, s', t);
      match op
      case Inserts(h, k, c, hold) => InsertProgress(s0, s, s', t, h, k, c, hold);
      case Erases(k) => EraseProgress(s0, s, s', t, k);
      case Evicts(h) => EvictProgress(s0, s, s', t, h);
      case Clears => ClearProgress(s, s', t);
    }
  }

  lemma GoingOn(s: State, step: Step, s': State, t: Thread)
    requires Inv(s) && StepsBy(s, step, s') && Owns(s, t) && !s.stage.Ready?
    ensures step.Find? || Referring(step) || GoesOn(step, t)
  {
    OwnerGoesOn(s, step, t);
  }

  /** An operation keeps the mutex until it is done. */
  lemma {:induction false} OperationProgress(run: seq<State>, steps: seq<Step>, op: Operation, s0: State, i: nat,
          j: nat, t: Thread)
    requires RunBy(run, steps) && i <= j < |run| && Progress(op, s0, run[i], t)
    requires forall m | i <= m < j :: !run[m].stage.Ready?
    ensures Progress(op, s0, run[j], t)
    decreases j
  {
    hide StepsBy, Inv, Init, Progress;
    if i < j {
      OperationProgress(run, steps, op, s0, i, j - 1, t);
      RunByInv(run, steps, j - 1);
      assert StepsBy(run[j - 1], steps[j - 1], run[j - 1 + 1]);
      StepProgress(op, s0, run[j - 1], steps[j - 1], run[j], t);
    }
  }

  /** Step `i` begins an operation and in state `j` it is done. */
  ghost predicate Lasts(run: seq<State>, steps: seq<Step>, i: nat, j: nat) {
    && RunBy(run, steps) && i < j < |run| && run[j].stage.Ready? && forall m | i < m < j :: !run[m].stage.Ready?
  }

  /** An insert ends with the key in the table, for a handle that holds the entry, with a reference for the caller if it
      asked for one. What the table had for the key is out of the cache, and no other key is touched. */
  lemma InsertDoes(run: seq<State>, steps: seq<Step>, i: nat, j: nat, t: Thread, h: HandleId, k: Key, c: nat,
          hold: bool)
    requires Lasts(run, steps, i, j) && steps[i] == Pick(t, h, k, c, hold)
    ensures run[j].table == run[i].table[k := h] && Entered(run[j], t, h, k, c, hold) && Replaced(run[i], run[j], k)
  {
    hide Inv, Init;
    assert StepsBy(run[i], steps[i], run[i + 1]);
    assert Progress(Inserts(h, k, c, hold), run[i], run[i + 1], t);
    hide StepsBy;
    OperationProgress(run, steps, Inserts(h, k, c, hold), run[i], i + 1, j, t);
  }

  /** An erase takes the key from the table and the entry out of the cache. */
  lemma EraseDoes(run: seq<State>, steps: seq<Step>, i: nat, j: nat, k: Key)
    requires Lasts(run, steps, i, j) && steps[i] == EraseKey(k)
    ensures k in run[i].table && run[j].table == run[i].table - {k} && Replaced(run[i], run[j], k)
  {
    hide Inv, Init;
    assert StepsBy(run[i], steps[i], run[i + 1]);
    var t := run[i].mutex.value;
    assert Progress(Erases(k), run[i], run[i + 1], t);
    hide StepsBy;
    OperationProgress(run, steps, Erases(k), run[i], i + 1, j, t);
  }

  /** An attempt to evict succeeds exactly if the entry is in the cache, was not used lately and nobody refers to it;
      then its key leaves the table, its charge is returned and its handle is in the bin. Otherwise nothing changes. */
  lemma EvictDoes(run: seq<State>, steps: seq<Step>, i: nat, j: nat, t: Thread, h: HandleId)
    requires Lasts(run, steps, i, j) && steps[i] == TryEvict(t, h)
    ensures h < |run[i].handles| == |run[j].handles|
    ensures var x := run[i].handles[h];
            if x.flags.inCache && !x.flags.used && x.flags.refs == 0
            then run[j].table == run[i].table - {x.key} && run[j].usage == run[i].usage - x.charge
                 && run[j].handles[h].home.Bin?
            else j == i + 1 && run[j] == run[i]
  {
    hide Inv, Init;
    assert StepsBy(run[i], steps[i], run[i + 1]);
    if run[i].handles[h].flags == Flags(true, false, 0) {
      assert Progress(Evicts(h), run[i], run[i + 1], t);
      hide StepsBy;
      OperationProgress(run, steps, Evicts(h), run[i], i + 1, j, t);
    }
  }

  /** Erasing all unreferenced entries leaves no key in the table and no entry in the cache. */
  lemma ClearDoes(run: seq<State>, steps: seq<Step>, i: nat, j: nat)
    requires Lasts(run, steps, i, j) && steps[i] == ClearTable
    ensures run[j].table == map[] && forall h | 0 <= h < |run[j].handles| :: !run[j].handles[h].flags.inCache
  {
    RunByInv(run, steps, j);
    hide Inv, Init;
    assert StepsBy(run[i], steps[i], run[i + 1]);
    var t := run[i].mutex.value;
    assert Progress(Clears, run[i], run[i + 1], t);
    hide StepsBy;
    OperationProgress(run, steps, Clears, run[i], i + 1, j, t);
    NothingInCache(run[j]);
  }

  lemma NothingInCache(s: State)
    requires Inv(s) && s.stage.Ready? && s.table == map[]
    ensures forall h | 0 <= h < |s.handles| :: !s.handles[h].flags.inCache
  {
  }

  // ---- Steps on references

  /** The reference of an insert goes to its client, for the key that was inserted. */
  lemma EndGivesReference(run: seq<State>, steps: seq<Step>, i: nat, t: Thread, id: nat)
    requires RunBy(run, steps) && i < |steps| && steps[i] == EndOp(t, id) && Local(t) in run[i].at
    ensures var h, s := run[i].at[Local(t)], run[i + 1];
            && Client(id) in s.at && s.at[Client(id)] == h && h < |s.handles| && id in s.clientKey
            && s.clientKey[id] == s.handles[h].key && s.mutex.None?
  {
    hide Inv, Init;
    assert StepsBy(run[i], steps[i], run[i + 1]);
  }

  /** A client that holds an entry can get another reference exactly as long as the entry is in the cache. */
  lemma RefHeldExactly(run: seq<State>, steps: seq<Step>, i: nat, t: Thread, id: nat, other: nat)
    requires RunBy(run, steps) && i < |steps| && steps[i] == RefHeld(t, id, other)
    ensures Client(id) in run[i].at && run[i].at[Client(id)] < |run[i].handles| && Client(other) !in run[i].at
    ensures var h := run[i].at[Client(id)];
            && (Client(other) in run[i + 1].at <==> run[i].handles[h].flags.inCache)
            && (Client(other) in run[i + 1].at ==>
                  run[i + 1].at[Client(other)] == h && id in run[i].clientKey && other in run[i + 1].clientKey
                  && run[i + 1].clientKey[other] == run[i].clientKey[id])
  {
    hide Inv, Init;
    assert StepsBy(run[i], steps[i], run[i + 1]);
  }

  /** A release marks the entry as used, which saves it from the next attempt to evict it. */
  lemma ReleaseMarks(run: seq<State>, steps: seq<Step>, i: nat, t: Thread, id: nat)
    requires RunBy(run, steps) && i < |steps| && steps[i] == BeginRelease(t, id)
    ensures Client(id) in run[i].at && Client(id) !in run[i + 1].at
    ensures var h := run[i].at[Client(id)];
            && h < |run[i + 1].handles| && run[i + 1].handles[h].flags.used
            && Local(t) in run[i + 1].at && run[i + 1].at[Local(t)] == h
  {
    hide Inv, Init;
    assert StepsBy(run[i], steps[i], run[i + 1]);
  }
}
