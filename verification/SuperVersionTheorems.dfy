/** What holds in every state of every run of the SuperVersion protocol. */
module SuperVersionTheorems {
  import opened Holding
  import opened SuperVersions
  import opened SuperVersionInvariant
  import opened SuperVersionSteps

  /** Every enabled step is safe and keeps the invariant. */
  lemma StepKeepsInv(s: State, step: Step)
    requires Inv(s) && Enabled(s, step)
    ensures Safe(s, step) && Inv(Apply(s, step))
  {
    hide Inv;
    hide DoSwap, DoCheck, DoUnrefStale, DoLock, DoCleanup, DoRefCurrent, DoUnlock, DoRefExtra, DoReturn, DoUnrefFailed,
         DoReleaseIterator, DoBeginInstall, DoPublish, DoBump, DoScrapeSlot, DoDropOld, DoEndInstall, DoThreadStart,
         DoThreadExit;
    InvSafe(s, step);
    match step {
      case Swap(t) => KeepsSwap(s, t);
      case Check(t) => KeepsCheck(s, t);
      case UnrefStale(t) => KeepsUnrefStale(s, t);
      case Lock(t) => KeepsLock(s, t);
      case Cleanup(t) => KeepsCleanup(s, t);
      case RefCurrent(t) => KeepsRefCurrent(s, t);
      case Unlock(t) => KeepsUnlock(s, t);
      case RefExtra(t) => KeepsRefExtra(s, t);
      case Return(t, id) => KeepsReturn(s, t, id);
      case UnrefFailed(t, id) => KeepsUnrefFailed(s, t, id);
      case ReleaseIterator(t, id) => KeepsReleaseIterator(s, t, id);
      case BeginInstall(t) => KeepsBeginInstall(s, t);
      case Publish => KeepsPublish(s);
      case Bump => KeepsBump(s);
      case ScrapeSlot(u) => KeepsScrapeSlot(s, u);
      case EndScrape => KeepsEndScrape(s);
      case UnrefScraped(u) => KeepsUnrefScraped(s, u);
      case DropOld(t) => KeepsDropOld(s, t);
      case EndInstall(t) => KeepsEndInstall(s, t);
      case ThreadStart(t) => KeepsThreadStart(s, t);
      case ThreadExit(t) => KeepsThreadExit(s, t);
    }
  }

  lemma KeepsReturn(s: State, t: Thread, id: nat)
    requires Inv(s) && Enabled(s, Return(t, id)) && Safe(s, Return(t, id))
    ensures Inv(DoReturn(s, t, id))
  {
    hide Inv;
    if !s.mark[t].InUse? {
      KeepsReturnFails(s, t, id);
    } else if At(s, t, Referenced) {
      KeepsReturnReferenced(s, t, id);
    } else {
      KeepsReturnPlain(s, t, id);
    }
  }

  lemma KeepsUnrefFailed(s: State, t: Thread, id: nat)
    requires Inv(s) && Enabled(s, UnrefFailed(t, id)) && Safe(s, UnrefFailed(t, id))
    ensures Inv(DoUnrefFailed(s, t, id))
  {
    hide Inv;
    if s.pc[t].referenced {
      KeepsUnrefFailedReferenced(s, t, id);
    } else {
      KeepsUnrefFailedPlain(s, t, id);
    }
  }

  lemma StepOfRun(run: seq<State>, i: nat) returns (step: Step)
    requires IsRun(run) && i + 1 < |run|
    ensures Enabled(run[i], step) && Safe(run[i], step) && run[i + 1] == Apply(run[i], step)
  {
    hide Enabled;
    hide Safe;
    hide Apply;
    assert Steps(run[i], run[i + 1]);
    step :| Enabled(run[i], step) && Safe(run[i], step) && run[i + 1] == Apply(run[i], step);
  }

  lemma StartOfRun(run: seq<State>)
    requires IsRun(run)
    ensures run != [] && Init(run[0])
  {
  }

  lemma {:induction false} ReachableInv(run: seq<State>, i: nat)
    requires IsRun(run) && i < |run|
    ensures Inv(run[i])
  {
    hide Inv;
    hide IsRun;
    hide Enabled;
    hide Safe;
    hide Apply;
    if i == 0 {
      StartOfRun(run);
      InitInv(run[0]);
    } else {
      ReachableInv(run, i - 1);
      var step := StepOfRun(run, i - 1);
      StepKeepsInv(run[i - 1], step);
    }
  }

  /** Conservation: in every reachable state each count is the number of variables that hold the
      SuperVersion: super_version_, the one being replaced, slots, readers, scraped items, iterators. */
  lemma CountsAreHolders(run: seq<State>, i: nat, sv: Sv)
    requires IsRun(run) && i < |run| && sv in run[i].refs
    ensures run[i].refs[sv] == |Holders(run[i].at, sv)|
  {
    ReachableInv(run, i);
  }

  /** No thread can fail an assertion or touch a SuperVersion that was cleaned up. In particular the
      unref in the scrape loop, the one at thread exit and the one after a failed compare-and-swap in
      GetReferencedSuperVersion are never the last. */
  lemma NoStepGoesWrong(run: seq<State>, i: nat, step: Step)
    requires IsRun(run) && i < |run| && Enabled(run[i], step)
    ensures Safe(run[i], step)
  {
    hide IsRun;
    hide Inv;
    hide Enabled;
    hide Safe;
    ReachableInv(run, i);
    InvSafe(run[i], step);
  }

  /** Whatever any variable holds is alive. */
  lemma NothingDangles(run: seq<State>, i: nat, p: Place)
    requires IsRun(run) && i < |run| && p in run[i].at
    ensures run[i].at[p] in run[i].refs && run[i].refs[run[i].at[p]] > 0 && run[i].at[p] !in run[i].cleaned
  {
    ReachableInv(run, i);
    Parts(run[i]);
    HeldIsAlive(run[i], p);
  }

  /** A SuperVersion with no reference left has been cleaned up, or exactly one thread is about to. */
  lemma CleanupIsExact(run: seq<State>, i: nat, sv: Sv)
    requires IsRun(run) && i < |run| && sv in run[i].refs
    ensures run[i].refs[sv] == 0 <==> (sv in run[i].cleaned || exists t | t in run[i].dead :: run[i].dead[t] == sv)
    ensures forall t, u | t in run[i].dead && u in run[i].dead && run[i].dead[t] == run[i].dead[u] :: t == u
    ensures forall t | t in run[i].dead :: run[i].dead[t] !in run[i].cleaned
  {
    ReachableInv(run, i);
  }

  /** Cleanup of one SuperVersion happens at most once: the step adds it to the cleaned ones, where it
      was not, and it stays there. */
  lemma {:induction false} CleanedForGood(run: seq<State>, i: nat, j: nat, sv: Sv)
    requires IsRun(run) && i <= j < |run| && sv in run[i].cleaned
    ensures sv in run[j].cleaned
    decreases j
  {
    hide IsRun;
    hide Enabled;
    hide Safe;
    hide Apply;
    if i < j {
      CleanedForGood(run, i, j - 1, sv);
      var step := StepOfRun(run, j - 1);
      CleanedGrows(run[j - 1], step);
    }
  }

  lemma CleanedGrows(s: State, step: Step)
    requires Enabled(s, step) && Safe(s, step)
    ensures s.cleaned <= Apply(s, step).cleaned
    ensures !step.Cleanup? ==> Apply(s, step).cleaned == s.cleaned
    ensures step.Cleanup? ==> s.dead[step.t] !in s.cleaned && Apply(s, step).cleaned == s.cleaned + {s.dead[step.t]}
  {
  }

  lemma CleanupAtMostOnce(run: seq<State>, i: nat, j: nat, t: Thread, u: Thread)
    requires IsRun(run) && i < j < |run|
    requires Enabled(run[i], Cleanup(t)) && run[i + 1] == DoCleanup(run[i], t) && Enabled(run[j], Cleanup(u))
    ensures run[i].dead[t] != run[j].dead[u]
  {
    hide IsRun;
    CleanedForGood(run, i + 1, j, run[i].dead[t]);
    NoStepGoesWrong(run, j, Cleanup(u));
  }

  /** Freshness of the cache: whenever the mutex is free, a slot holds a marker or the installed SuperVersion. */
  lemma SlotsAreFresh(run: seq<State>, i: nat, t: Thread)
    requires IsRun(run) && i < |run| && run[i].mutex.None? && t in run[i].mark && run[i].mark[t].Pointer?
    ensures Slot(t) in run[i].at && Installed in run[i].at
    ensures run[i].at[Slot(t)] == run[i].at[Installed] == run[i].number
  {
    ReachableInv(run, i);
    var s := run[i];
    Parts(s);
    FreeMutex(s);
    hide Conserved;
    hide Accounted;
    assert ThreadOk(s, t);
  }

  lemma FreeMutex(s: State)
    requires Control(s) && s.mutex.None?
    ensures s.phase.NoInstall? && s.mark.Keys == s.pc.Keys
  {
  }

  /** The recorded floor is that of the call: only the swap that begins a call sets it. */
  lemma FloorKept(s: State, step: Step, t: Thread)
    requires Enabled(s, step) && Safe(s, step) && t in s.pc && t in s.floor && s.pc[t].InCall()
    requires t in Apply(s, step).pc && Apply(s, step).pc[t].InCall()
    ensures t in Apply(s, step).floor && Apply(s, step).floor[t] == s.floor[t]
  {
  }

  /** The thread is inside one call from state `i` to state `j`. */
  ghost predicate OneCall(run: seq<State>, i: nat, j: nat, t: Thread) {
    i <= j < |run| && forall m | i <= m <= j :: t in run[m].pc && t in run[m].floor && run[m].pc[t].InCall()
  }

  lemma {:induction false} FloorOfCall(run: seq<State>, i: nat, j: nat, t: Thread)
    requires IsRun(run) && OneCall(run, i, j, t)
    ensures run[j].floor[t] == run[i].floor[t]
    decreases j
  {
    hide IsRun;
    hide Enabled;
    hide Safe;
    hide Apply;
    if i < j {
      assert OneCall(run, i, j - 1, t);
      FloorOfCall(run, i, j - 1, t);
      var step := StepOfRun(run, j - 1);
      FloorKept(run[j - 1], step, t);
    }
  }

  /** Freshness of the result: a call that began (with its swap) in state `i` and returned by state `j`
      holds a SuperVersion at least as new as the last install completed before it began. */
  lemma ResultIsFresh(run: seq<State>, i: nat, j: nat, t: Thread)
    requires IsRun(run) && i + 1 <= j < |run|
    requires Enabled(run[i], Swap(t)) && Safe(run[i], Swap(t)) && run[i + 1] == DoSwap(run[i], t)
    requires OneCall(run, i + 1, j, t) && run[j].pc[t].Holding?
    ensures Local(t) in run[j].at && run[j].at[Local(t)] >= run[i].completed
  {
    hide IsRun;
    hide Inv;
    hide Conserved;
    hide Accounted;
    FloorOfCall(run, i + 1, j, t);
    ReachableInv(run, j);
    Known(run[j], t);
    SwapSetsFloor(run[i], t);
    hide OneCall;
    hide Enabled;
    hide Safe;
    hide DoSwap;
  }

  lemma SwapSetsFloor(s: State, t: Thread)
    requires t in s.mark && (s.mark[t].Pointer? ==> Slot(t) in s.at)
    ensures t in DoSwap(s, t).floor && DoSwap(s, t).floor[t] == s.completed
  {
  }

  /** Installs are numbered one after another, and a completed install is the installed one. */
  lemma CompletedIsInstalled(run: seq<State>, i: nat)
    requires IsRun(run) && i < |run| && run[i].mutex.None?
    ensures Installed in run[i].at && run[i].at[Installed] == run[i].number == run[i].completed
  {
    ReachableInv(run, i);
    Parts(run[i]);
    FreeMutex(run[i]);
  }
}
