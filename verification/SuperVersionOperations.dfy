/** What the calls on the thread-local cache achieve, over every run and whatever other threads do meanwhile. */
module SuperVersionOperations {
  import opened SuperVersions
  import opened SuperVersionInvariant
  import opened SuperVersionTheorems

  // ---- Runs with their steps

  ghost predicate StepsBy(s: State, step: Step, s': State) {
    Enabled(s, step) && Safe(s, step) && s' == Apply(s, step)
  }

  ghost predicate RunBy(run: seq<State>, steps: seq<Step>) {
    && |run| == |steps| + 1 && Init(run[0])
    && forall i | 0 <= i < |steps| :: StepsBy(run[i], steps[i], run[i + 1])
  }

  /** The step is one that thread `t` takes in a call on the cache. */
  predicate OwnStep(step: Step, t: Thread) {
    || step == Swap(t) || step == Check(t) || step == UnrefStale(t) || step == Lock(t) || step == Cleanup(t)
    || step == RefCurrent(t) || step == Unlock(t) || step == RefExtra(t) || (step.Return? && step.t == t)
    || (step.UnrefFailed? && step.t == t)
  }

  /** Where the call of thread `t` stands. */
  ghost predicate SameCall(s: State, s': State, t: Thread) {
    && t in s.pc && t in s'.pc && s'.pc[t] == s.pc[t]
    && (Local(t) in s'.at <==> Local(t) in s.at) && (Local(t) in s.at ==> s'.at[Local(t)] == s.at[Local(t)])
    && (Extra(t) in s'.at <==> Extra(t) in s.at) && (Extra(t) in s.at ==> s'.at[Extra(t)] == s.at[Extra(t)])
  }

  /** Steps of the other readers. */
  predicate Reading(step: Step) {
    || step.Swap? || step.Check? || step.UnrefStale? || step.Lock? || step.Cleanup? || step.RefCurrent?
    || step.Unlock? || step.RefExtra? || step.Return? || step.UnrefFailed? || step.ReleaseIterator?
  }

  lemma OtherReader(s: State, step: Step, s': State, t: Thread)
    requires StepsBy(s, step, s') && t in s.pc && s.pc[t].InCall() && t in s.mark && !OwnStep(step, t) && Reading(step)
    ensures SameCall(s, s', t) && t in s'.mark && s'.mark[t] == s.mark[t]
  {
    if step.Return? || step.UnrefFailed? || step.ReleaseIterator? {
      OtherEnds(s, step, s', t);
    } else {
      OtherBegins(s, step, s', t);
    }
  }

  lemma OtherBegins(s: State, step: Step, s': State, t: Thread)
    requires StepsBy(s, step, s') && t in s.pc && s.pc[t].InCall() && t in s.mark && !OwnStep(step, t) && Reading(step)
    requires !step.Return? && !step.UnrefFailed? && !step.ReleaseIterator?
    ensures SameCall(s, s', t) && t in s'.mark && s'.mark[t] == s.mark[t]
  {
  }

  lemma OtherEnds(s: State, step: Step, s': State, t: Thread)
    requires StepsBy(s, step, s') && t in s.pc && s.pc[t].InCall() && t in s.mark && !OwnStep(step, t)
    requires step.Return? || step.UnrefFailed? || step.ReleaseIterator?
    ensures SameCall(s, s', t) && t in s'.mark && s'.mark[t] == s.mark[t]
  {
  }

  lemma OtherInstall(s: State, step: Step, s': State, t: Thread)
    requires StepsBy(s, step, s') && t in s.pc && s.pc[t].InCall() && t in s.mark && !Reading(step)
    ensures SameCall(s, s', t) && t in s'.mark
    ensures s'.mark[t] == if step == ScrapeSlot(t) then Obsolete else s.mark[t]
  {
  }

  lemma OtherStep(s: State, step: Step, s': State, t: Thread)
    requires StepsBy(s, step, s') && t in s.pc && s.pc[t].InCall() && t in s.mark && !OwnStep(step, t)
    ensures SameCall(s, s', t) && t in s'.mark
    ensures s'.mark[t] == if step == ScrapeSlot(t) then Obsolete else s.mark[t]
  {
    hide StepsBy;
    if Reading(step) {
      OtherReader(s, step, s', t);
    } else {
      OtherInstall(s, step, s', t);
    }
  }

  /** The steps of a call before its end leave the marker alone. */
  lemma OwnMark(s: State, step: Step, s': State, t: Thread)
    requires StepsBy(s, step, s') && t in s.mark && OwnStep(step, t) && !step.Swap? && !step.Return?
    requires !step.UnrefFailed?
    ensures t in s'.mark && s'.mark[t] == s.mark[t]
  {
  }

  lemma SwapStep(s: State, s': State, t: Thread)
    requires StepsBy(s, Swap(t), s')
    ensures t in s.mark && t in s'.mark && s'.mark[t] == InUse && t in s'.pc && s'.pc[t] == Swapped
    ensures if s.mark[t].Pointer? then Slot(t) in s.at && Local(t) in s'.at && s'.at[Local(t)] == s.at[Slot(t)]
            else (Local(t) in s'.at <==> Local(t) in s.at)
  {
  }

  lemma CheckStep(s: State, s': State, t: Thread)
    requires StepsBy(s, Check(t), s')
    ensures s'.at == s.at && s'.refs == s.refs && s'.mutex == s.mutex && t in s'.pc
    ensures s'.pc[t] == if Local(t) in s.at && s.at[Local(t)] == s.number then Holding else Stale
  {
  }

  // ---- GetThreadLocalSuperVersion

  /** A call takes the cached SuperVersion, without the mutex and without counting, exactly if the slot held one whose
      number is still the current one at the check. */
  lemma CacheHitExactly(run: seq<State>, steps: seq<Step>, i: nat, c: nat, t: Thread)
    requires RunBy(run, steps) && i < c < |steps| && steps[i] == Swap(t) && steps[c] == Check(t)
    requires forall m | i < m < c :: !OwnStep(steps[m], t)
    ensures t in run[i].mark && t in run[c + 1].pc
    ensures if run[i].mark[t].Pointer? && Slot(t) in run[i].at && run[i].at[Slot(t)] == run[c].number
            then run[c + 1].pc[t] == Holding && Local(t) in run[c + 1].at
              && run[c + 1].at[Local(t)] == run[i].at[Slot(t)]
                 && run[c + 1].refs == run[c].refs
            else run[c + 1].pc[t] == Stale
  {
    hide StepsBy, Init, SameCall;
    assert StepsBy(run[i], steps[i], run[i + 1]);
    SwapStep(run[i], run[i + 1], t);
    NoLocal(run, steps, i, t);
    var m := i + 1;
    while m < c
      invariant i < m <= c && t in run[m].pc && run[m].pc[t] == Swapped && t in run[m].mark
      invariant if run[i].mark[t].Pointer? then Local(t) in run[m].at && run[m].at[Local(t)] == run[i].at[Slot(t)]
                else Local(t) !in run[m].at
    {
      assert StepsBy(run[m], steps[m], run[m + 1]);
      OtherStep(run[m], steps[m], run[m + 1], t);
      CallFacts(run[m], run[m + 1], t);
      m := m + 1;
    }
    assert StepsBy(run[c], steps[c], run[c + 1]);
    CheckStep(run[c], run[c + 1], t);
  }

  lemma CallFacts(s: State, s': State, t: Thread)
    requires SameCall(s, s', t)
    ensures t in s.pc && t in s'.pc && s'.pc[t] == s.pc[t]
    ensures (Local(t) in s'.at <==> Local(t) in s.at) && (Local(t) in s.at ==> s'.at[Local(t)] == s.at[Local(t)])
    ensures (Extra(t) in s'.at <==> Extra(t) in s.at) && (Extra(t) in s.at ==> s'.at[Extra(t)] == s.at[Extra(t)])
  {
  }

  lemma RunByInv(run: seq<State>, steps: seq<Step>, i: nat)
    requires RunBy(run, steps) && i < |run|
    ensures Inv(run[i])
  {
    hide Enabled, Safe, Apply, Init;
    forall m | 0 <= m < |run| - 1 ensures Steps(run[m], run[m + 1]) {
      assert StepsBy(run[m], steps[m], run[m + 1]);
    }
    ReachableInv(run, i);
  }

  lemma NoLocal(run: seq<State>, steps: seq<Step>, i: nat, t: Thread)
    requires RunBy(run, steps) && i < |steps| && steps[i] == Swap(t)
    ensures Local(t) !in run[i].at
  {
    RunByInv(run, steps, i);
    hide Init;
    assert StepsBy(run[i], steps[i], run[i + 1]);
    IdleHolds(run[i], t);
  }

  lemma IdleHolds(s: State, t: Thread)
    requires Inv(s) && At(s, t, Idle)
    ensures Local(t) !in s.at
  {
  }

  /** Otherwise it ends with the SuperVersion that is installed when it has the mutex, and a reference of its own. */
  lemma MissTakesInstalled(run: seq<State>, steps: seq<Step>, i: nat, t: Thread)
    requires RunBy(run, steps) && i < |steps| && steps[i] == RefCurrent(t)
    ensures Installed in run[i].at && Local(t) in run[i + 1].at && run[i + 1].at[Local(t)] == run[i].at[Installed]
    ensures var sv := run[i].at[Installed];
            sv in run[i].refs && sv in run[i + 1].refs && run[i + 1].refs[sv] == run[i].refs[sv] + 1
  {
    hide Init;
    assert StepsBy(run[i], steps[i], run[i + 1]);
  }

  // ---- ReturnThreadLocalSuperVersion and GetReferencedSuperVersion

  /** No install has scraped the slot of the thread since its call began in step `i`. */
  ghost predicate Unscraped(steps: seq<Step>, i: nat, j: nat, t: Thread) {
    forall m | i < m < j && m < |steps| :: steps[m] != ScrapeSlot(t)
  }

  /** The thread is inside the call that began in step `i`. */
  ghost predicate InOneCall(run: seq<State>, steps: seq<Step>, i: nat, j: nat, t: Thread) {
    && RunBy(run, steps) && i < j < |run| && steps[i] == Swap(t)
    && forall m | i < m <= j :: t in run[m].pc && run[m].pc[t].InCall()
  }

  lemma {:induction false} MarkOfCall(run: seq<State>, steps: seq<Step>, i: nat, j: nat, t: Thread)
    requires InOneCall(run, steps, i, j, t)
    ensures t in run[j].mark && run[j].mark[t] == if Unscraped(steps, i, j, t) then InUse else Obsolete
    decreases j
  {
    hide StepsBy, Init, SameCall;
    if j == i + 1 {
      assert StepsBy(run[i], steps[i], run[i + 1]);
      SwapStep(run[i], run[i + 1], t);
    } else {
      MarkOfCall(run, steps, i, j - 1, t);
      var m := j - 1;
      assert StepsBy(run[m], steps[m], run[m + 1]);
      if OwnStep(steps[m], t) {
        StaysInCall(run[m], steps[m], run[j], t);
        OwnMark(run[m], steps[m], run[j], t);
      } else {
        OtherStep(run[m], steps[m], run[j], t);
      }
      assert Unscraped(steps, i, j, t) <==> Unscraped(steps, i, m, t) && steps[m] != ScrapeSlot(t);
    }
  }

  lemma StaysInCall(s: State, step: Step, s': State, t: Thread)
    requires StepsBy(s, step, s') && OwnStep(step, t) && t in s.pc && s.pc[t].InCall()
    requires t in s'.pc && s'.pc[t].InCall()
    ensures !step.Swap? && !step.Return? && !step.UnrefFailed?
  {
  }

  /** At its end a call puts its SuperVersion back into the slot exactly if no install has scraped the slot meanwhile,
      and otherwise has to drop it. A second reference goes to an iterator. */
  lemma ReturnExactly(run: seq<State>, steps: seq<Step>, i: nat, j: nat, t: Thread, id: nat)
    requires InOneCall(run, steps, i, j, t) && j < |steps| && steps[j] == Return(t, id)
    ensures Local(t) in run[j].at && t in run[j].pc && t in run[j + 1].pc && t in run[j + 1].mark
    ensures if Unscraped(steps, i, j, t)
            then run[j + 1].pc[t] == Idle && run[j + 1].mark[t].Pointer? && Slot(t) in run[j + 1].at
                 && run[j + 1].at[Slot(t)] == run[j].at[Local(t)] && run[j + 1].refs == run[j].refs
                 && (run[j].pc[t].Referenced? ==>
                       Iterator(id) in run[j + 1].at && Extra(t) in run[j].at
                       && run[j + 1].at[Iterator(id)] == run[j].at[Extra(t)])
            else run[j + 1].pc[t] == Failed(run[j].pc[t].Referenced?) && run[j + 1].at == run[j].at
  {
    MarkOfCall(run, steps, i, j, t);
    hide Init;
    assert StepsBy(run[j], steps[j], run[j + 1]);
  }

  /** After a failed return the reference of the call goes, and the second one goes to the iterator. */
  lemma FailedReturn(run: seq<State>, steps: seq<Step>, j: nat, t: Thread, id: nat)
    requires RunBy(run, steps) && j < |steps| && steps[j] == UnrefFailed(t, id)
    ensures t in run[j].pc && run[j].pc[t].Failed? && Local(t) in run[j].at && Local(t) !in run[j + 1].at
    ensures run[j].pc[t].referenced ==>
              Extra(t) in run[j].at && Iterator(id) in run[j + 1].at
                && run[j + 1].at[Iterator(id)] == run[j].at[Extra(t)]
    ensures var sv := run[j].at[Local(t)];
            sv in run[j].refs && sv in run[j + 1].refs && run[j + 1].refs[sv] == run[j].refs[sv] - 1
  {
    hide Init;
    assert StepsBy(run[j], steps[j], run[j + 1]);
  }

  // ---- InstallSuperVersion

  /** An install publishes a SuperVersion with the next number, and holds the one before until its end. */
  lemma InstallNext(run: seq<State>, steps: seq<Step>, i: nat)
    requires RunBy(run, steps) && i < |steps| && steps[i].Publish?
    ensures Installed in run[i].at && Installed in run[i + 1].at && Old in run[i + 1].at
    ensures run[i + 1].at[Installed] == run[i].number + 1 && run[i + 1].at[Old] == run[i].at[Installed]
  {
    hide Init;
    assert StepsBy(run[i], steps[i], run[i + 1]);
  }
}
