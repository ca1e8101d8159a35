/** The thread-local SuperVersion cache as a state machine: every atomic operation on a slot, a reference
    count or the mutex is one step, and steps of different threads interleave freely.

    A SuperVersion is named by its version number. `at` says which variable holds which SuperVersion;
    each entry is a pointer that the protocol counts. */
module SuperVersions {
  import opened Holding
  import opened Options

  type Thread = nat
  type Sv = nat

  /** The variables that hold counted pointers. */
  datatype Place =
    | Installed             // super_version_
    | Old                   // old_superversion in InstallSuperVersion
    | Slot(thread: Thread)  // the thread-local slot
    | Local(thread: Thread) // sv in a reader's call
    | Extra(thread: Thread) // the second reference of GetReferencedSuperVersion
    | Scraped(thread: Thread) // taken from a slot by Scrape
    | Iterator(id: nat)     // held by an iterator

  /** What a slot holds: kSVObsolete, kSVInUse, or a pointer (then named by `at`). */
  datatype Mark = Obsolete | InUse | Pointer

  /** Where a thread is. */
  datatype Pc =
    | Idle
    | Swapped      // GetThreadLocalSuperVersion, after the swap
    | Stale        // the pointer is obsolete or out of date
    | Locking      // waiting for the mutex
    | Locked       // holding it
    | Acquired     // has referenced super_version_
    | Holding      // GetThreadLocalSuperVersion has returned
    | Referenced   // GetReferencedSuperVersion, after the second Ref
    | Failed(referenced: bool) // the compare-and-swap failed: must Unref
    | Releasing    // dropped a last reference: waiting for the mutex
    | ReleaseLocked
    | Installing
  {
    /** Between the swap and the compare-and-swap. */
    predicate InCall() { Swapped? || Stale? || Locking? || Locked? || Acquired? || Holding? || Referenced? }
    predicate HasMutex() { Locked? || Acquired? || ReleaseLocked? || Installing? }
  }

  /** How far the install under the mutex has come. */
  datatype Phase =
    | NoInstall
    | Ready
    | Published
    | Scraping(done: set<Thread>)
    | Draining
    | Dropped

  datatype State = State(
    at: map<Place, Sv>,
    refs: map<Sv, nat>,
    mark: map<Thread, Mark>,
    pc: map<Thread, Pc>,
    floor: map<Thread, nat>,   // installs completed when the thread's call began
    dead: map<Thread, Sv>,     // the SuperVersion that a thread must clean up
    cleaned: set<Sv>,
    mutex: Option<Thread>,
    phase: Phase,
    number: nat,               // super_version_number_
    completed: nat)            // the last install that released the mutex

  datatype Step =
    | Swap(t: Thread)
    | Check(t: Thread)
    | UnrefStale(t: Thread)
    | Lock(t: Thread)
    | Cleanup(t: Thread)
    | RefCurrent(t: Thread)
    | Unlock(t: Thread)
    | RefExtra(t: Thread)
    | Return(t: Thread, id: nat)
    | UnrefFailed(t: Thread, id: nat)
    | ReleaseIterator(t: Thread, id: nat)
    | BeginInstall(t: Thread)
    | Publish
    | Bump
    | ScrapeSlot(u: Thread)
    | EndScrape
    | UnrefScraped(u: Thread)
    | DropOld(t: Thread)
    | EndInstall(t: Thread)
    | ThreadStart(t: Thread)
    | ThreadExit(t: Thread)

  /** SuperVersion::Unref by thread `t` on the pointer in `p`: the last reference leaves a cleanup to do. */
  function Drop(s: State, t: Thread, p: Place): State
    requires p in s.at && s.at[p] in s.refs && s.refs[s.at[p]] > 0
  {
    var sv := s.at[p];
    var left := s.refs[sv] - 1;
    s.(at := s.at - {p}, refs := s.refs[sv := left], dead := if left == 0 then s.dead[t := sv] else s.dead)
  }

  /** The pointer in `p` is to a SuperVersion that has not been cleaned up and is still counted. */
  predicate Alive(s: State, p: Place) {
    p in s.at && s.at[p] in s.refs && s.refs[s.at[p]] > 0 && s.at[p] !in s.cleaned
  }

  /** Dropping the pointer in `p` leaves other references. */
  predicate NotLast(s: State, p: Place) {
    Alive(s, p) && s.refs[s.at[p]] > 1
  }

  predicate At(s: State, t: Thread, pc: Pc) {
    t in s.pc && s.pc[t] == pc
  }

  /** The thread's own control state lets it take this step now. */
  predicate Enabled(s: State, step: Step) {
    match step
    case Swap(t) => At(s, t, Idle)
    case Check(t) => At(s, t, Swapped)
    case UnrefStale(t) => At(s, t, Stale)
    case Lock(t) => (At(s, t, Locking) || At(s, t, Releasing)) && s.mutex.None?
    case Cleanup(t) => t in s.pc && t in s.dead && s.pc[t].HasMutex()
    case RefCurrent(t) => At(s, t, Locked) && t !in s.dead
    case Unlock(t) => (At(s, t, Acquired) || At(s, t, ReleaseLocked)) && t !in s.dead
    case RefExtra(t) => At(s, t, Holding)
    case Return(t, id) => (At(s, t, Holding) || At(s, t, Referenced)) && Iterator(id) !in s.at
    case UnrefFailed(t, id) => t in s.pc && s.pc[t].Failed? && Iterator(id) !in s.at
    case ReleaseIterator(t, id) => At(s, t, Idle) && Iterator(id) in s.at
    case BeginInstall(t) => At(s, t, Idle) && s.mutex.None?
    case Publish => s.phase.Ready?
    case Bump => s.phase.Published?
    case ScrapeSlot(u) => s.phase.Scraping? && u in s.mark && u !in s.phase.done
    case EndScrape => s.phase.Scraping? && s.phase.done == s.mark.Keys
    case UnrefScraped(u) => s.phase.Draining? && Scraped(u) in s.at
    case DropOld(t) => At(s, t, Installing) && s.phase.Draining? && forall p | p in s.at :: !p.Scraped?
    case EndInstall(t) => At(s, t, Installing) && s.phase.Dropped? && t !in s.dead
    case ThreadStart(t) => t !in s.pc && !s.phase.Scraping?
    case ThreadExit(t) => At(s, t, Idle) && !s.phase.Scraping?
  }

  /** What the code asserts at the step, and that it touches no SuperVersion that was cleaned up. */
  predicate Safe(s: State, step: Step)
    requires Enabled(s, step)
  {
    match step
    case Swap(t) => t in s.mark && !s.mark[t].InUse? && (s.mark[t].Pointer? ==> Alive(s, Slot(t)))
    case Check(t) => Local(t) in s.at ==> Alive(s, Local(t))
    case UnrefStale(t) => Local(t) in s.at ==> Alive(s, Local(t))
    case Cleanup(t) => s.dead[t] in s.refs && s.refs[s.dead[t]] == 0 && s.dead[t] !in s.cleaned
    case RefCurrent(t) => Alive(s, Installed)
    case RefExtra(t) => Alive(s, Local(t))
    case Return(t, id) =>
      && t in s.mark && !s.mark[t].Pointer? && Alive(s, Local(t))
      && (At(s, t, Referenced) ==> Alive(s, Extra(t)))
    case UnrefFailed(t, id) =>
      if s.pc[t].referenced then NotLast(s, Local(t)) && Alive(s, Extra(t)) else Alive(s, Local(t))
    case ReleaseIterator(t, id) => Alive(s, Iterator(id))
    case Publish => Alive(s, Installed) && s.number + 1 !in s.refs
    case ScrapeSlot(u) => s.mark[u].Pointer? ==> Alive(s, Slot(u))
    case UnrefScraped(u) => NotLast(s, Scraped(u))
    case DropOld(t) => Alive(s, Old)
    case ThreadExit(t) => t in s.mark && !s.mark[t].InUse? && (s.mark[t].Pointer? ==> NotLast(s, Slot(t)))
    case _ => true
  }

  // ---- The effect of each step

  function DoSwap(s: State, t: Thread): State
    requires t in s.mark && (s.mark[t].Pointer? ==> Slot(t) in s.at)
  {
    s.(at := if s.mark[t].Pointer? then Move(s.at, Slot(t), Local(t)) else s.at,
       mark := s.mark[t := InUse], pc := s.pc[t := Swapped], floor := s.floor[t := s.completed])
  }

  function DoCheck(s: State, t: Thread): State {
    if Local(t) in s.at && s.at[Local(t)] == s.number then s.(pc := s.pc[t := Holding])
    else s.(pc := s.pc[t := Stale])
  }

  function DoUnrefStale(s: State, t: Thread): State
    requires Local(t) in s.at ==> Alive(s, Local(t))
  {
    (if Local(t) in s.at then Drop(s, t, Local(t)) else s).(pc := s.pc[t := Locking])
  }

  function DoLock(s: State, t: Thread): State
    requires t in s.pc
  {
    s.(mutex := Some(t), pc := s.pc[t := if s.pc[t].Locking? then Locked else ReleaseLocked])
  }

  function DoCleanup(s: State, t: Thread): State
    requires t in s.dead
  {
    s.(cleaned := s.cleaned + {s.dead[t]}, dead := s.dead - {t})
  }

  function DoRefCurrent(s: State, t: Thread): State
    requires Alive(s, Installed)
  {
    var sv := s.at[Installed];
    s.(at := s.at[Local(t) := sv], refs := s.refs[sv := s.refs[sv] + 1], pc := s.pc[t := Acquired])
  }

  function DoUnlock(s: State, t: Thread): State
    requires t in s.pc
  {
    s.(mutex := None, pc := s.pc[t := if s.pc[t].Acquired? then Holding else Idle])
  }

  function DoRefExtra(s: State, t: Thread): State
    requires Alive(s, Local(t))
  {
    var sv := s.at[Local(t)];
    s.(at := s.at[Extra(t) := sv], refs := s.refs[sv := s.refs[sv] + 1], pc := s.pc[t := Referenced])
  }

  /** ReturnThreadLocalSuperVersion; `GetReferencedSuperVersion` then hands its own reference to an iterator. */
  function DoReturn(s: State, t: Thread, id: nat): State
    requires t in s.pc && t in s.mark && Local(t) in s.at && (s.pc[t].Referenced? ==> Extra(t) in s.at)
  {
    if s.mark[t].InUse? then
      var at1 := Move(s.at, Local(t), Slot(t));
      s.(at := if s.pc[t].Referenced? then Move(at1, Extra(t), Iterator(id)) else at1,
         mark := s.mark[t := Pointer], pc := s.pc[t := Idle])
    else
      s.(pc := s.pc[t := Failed(s.pc[t].Referenced?)])
  }

  /** The release after a failed compare-and-swap. */
  function DoUnrefFailed(s: State, t: Thread, id: nat): State
    requires t in s.pc && s.pc[t].Failed? && Alive(s, Local(t)) && (s.pc[t].referenced ==> Extra(t) in s.at)
  {
    var s1 := Drop(s, t, Local(t));
    s1.(at := if s.pc[t].referenced then Move(s1.at, Extra(t), Iterator(id)) else s1.at,
        pc := s.pc[t := if t in s1.dead then Releasing else Idle])
  }

  function DoReleaseIterator(s: State, t: Thread, id: nat): State
    requires Alive(s, Iterator(id))
  {
    var s1 := Drop(s, t, Iterator(id));
    s1.(pc := s.pc[t := if t in s1.dead then Releasing else Idle])
  }

  function DoBeginInstall(s: State, t: Thread): State {
    s.(mutex := Some(t), pc := s.pc[t := Installing], phase := Ready)
  }

  function DoPublish(s: State): State
    requires Installed in s.at
  {
    s.(at := s.at[Old := s.at[Installed]][Installed := s.number + 1],
       refs := s.refs[s.number + 1 := 1], phase := Published)
  }

  function DoBump(s: State): State {
    s.(number := s.number + 1, phase := Scraping({}))
  }

  function DoScrapeSlot(s: State, u: Thread): State
    requires s.phase.Scraping? && u in s.mark && (s.mark[u].Pointer? ==> Slot(u) in s.at)
  {
    s.(at := if s.mark[u].Pointer? then Move(s.at, Slot(u), Scraped(u)) else s.at,
       mark := s.mark[u := Obsolete], phase := Scraping(s.phase.done + {u}))
  }

  function DoDropOld(s: State, t: Thread): State
    requires Alive(s, Old)
  {
    Drop(s, t, Old).(phase := Dropped)
  }

  function DoEndInstall(s: State, t: Thread): State {
    s.(mutex := None, pc := s.pc[t := Idle], phase := NoInstall, completed := s.number)
  }

  function DoThreadStart(s: State, t: Thread): State {
    s.(mark := s.mark[t := Obsolete], pc := s.pc[t := Idle], floor := s.floor[t := s.completed])
  }

  function DoThreadExit(s: State, t: Thread): State
    requires t in s.mark && (s.mark[t].Pointer? ==> Alive(s, Slot(t)))
  {
    (if s.mark[t].Pointer? then Drop(s, t, Slot(t)) else s).(
      mark := s.mark - {t}, pc := s.pc - {t}, floor := s.floor - {t})
  }

  function Apply(s: State, step: Step): State
    requires Enabled(s, step) && Safe(s, step)
  {
    match step
    case Swap(t) => DoSwap(s, t)
    case Check(t) => DoCheck(s, t)
    case UnrefStale(t) => DoUnrefStale(s, t)
    case Lock(t) => DoLock(s, t)
    case Cleanup(t) => DoCleanup(s, t)
    case RefCurrent(t) => DoRefCurrent(s, t)
    case Unlock(t) => DoUnlock(s, t)
    case RefExtra(t) => DoRefExtra(s, t)
    case Return(t, id) => DoReturn(s, t, id)
    case UnrefFailed(t, id) => DoUnrefFailed(s, t, id)
    case ReleaseIterator(t, id) => DoReleaseIterator(s, t, id)
    case BeginInstall(t) => DoBeginInstall(s, t)
    case Publish => DoPublish(s)
    case Bump => DoBump(s)
    case ScrapeSlot(u) => DoScrapeSlot(s, u)
    case EndScrape => s.(phase := Draining)
    case UnrefScraped(u) => Drop(s, u, Scraped(u))
    case DropOld(t) => DoDropOld(s, t)
    case EndInstall(t) => DoEndInstall(s, t)
    case ThreadStart(t) => DoThreadStart(s, t)
    case ThreadExit(t) => DoThreadExit(s, t)
  }

  /** After the first install, with no reader yet. */
  ghost predicate Init(s: State) {
    s == State(map[Installed := 1], map[1 := 1], map[], map[], map[], map[], {}, None, NoInstall, 1, 1)
  }

  /** A run: each state follows from the one before by some enabled step. */
  ghost predicate IsRun(run: seq<State>) {
    && run != [] && Init(run[0])
    && forall i | 0 <= i < |run| - 1 :: Steps(run[i], run[i + 1])
  }

  ghost predicate Steps(s: State, s': State) {
    exists step :: Enabled(s, step) && Safe(s, step) && s' == Apply(s, step)
  }
}
