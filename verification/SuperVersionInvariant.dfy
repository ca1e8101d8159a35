/** The invariant of the SuperVersion protocol, and that every step of every thread keeps it. */
module SuperVersionInvariant {
  import opened Holding
  import opened Options
  import opened SuperVersions

  // ---- Conservation of references

  /** Each count is the number of variables that hold the SuperVersion. */
  ghost predicate Conserved(at: map<Place, Sv>, refs: map<Sv, nat>) {
    && (forall p | p in at :: at[p] in refs)
    && (forall sv | sv in refs :: refs[sv] == |Holders(at, sv)|)
  }

  /** A SuperVersion without references has been cleaned up, or exactly one thread is about to do it. */
  ghost predicate Accounted(refs: map<Sv, nat>, dead: map<Thread, Sv>, cleaned: set<Sv>) {
    && (forall sv | sv in cleaned :: sv in refs && refs[sv] == 0)
    && (forall t | t in dead :: dead[t] in refs && refs[dead[t]] == 0 && dead[t] !in cleaned)
    && (forall t, u | t in dead && u in dead && dead[t] == dead[u] :: t == u)
    && (forall sv | sv in refs && refs[sv] == 0 :: sv in cleaned || exists t | t in dead :: dead[t] == sv)
  }

  lemma HeldIsAlive(s: State, p: Place)
    requires Conserved(s.at, s.refs) && Accounted(s.refs, s.dead, s.cleaned) && p in s.at
    ensures Alive(s, p)
  {
    HoldersSome(s.at, p);
  }

  lemma TwoHolders(s: State, p: Place, q: Place)
    requires Conserved(s.at, s.refs) && Accounted(s.refs, s.dead, s.cleaned)
    requires p in s.at && q in s.at && p != q && s.at[p] == s.at[q]
    ensures NotLast(s, p)
  {
    HeldIsAlive(s, p);
    HoldersTwo(s.at, p, q);
  }

  lemma MoveConserves(at: map<Place, Sv>, refs: map<Sv, nat>, from: Place, to: Place)
    requires Conserved(at, refs) && from in at && to !in at
    ensures Conserved(Move(at, from, to), refs)
  {
    forall sv | sv in refs ensures refs[sv] == |Holders(Move(at, from, to), sv)| {
      HoldersMove(at, from, to, sv);
    }
  }

  lemma RefConserves(at: map<Place, Sv>, refs: map<Sv, nat>, p: Place, sv: Sv)
    requires Conserved(at, refs) && p !in at && sv in refs
    ensures Conserved(at[p := sv], refs[sv := refs[sv] + 1])
  {
    forall v | v in refs ensures refs[sv := refs[sv] + 1][v] == |Holders(at[p := sv], v)| {
      HoldersAdd(at, p, sv, v);
    }
  }

  lemma UnrefConserves(at: map<Place, Sv>, refs: map<Sv, nat>, p: Place)
    requires Conserved(at, refs) && p in at && refs[at[p]] > 0
    ensures Conserved(at - {p}, refs[at[p] := refs[at[p]] - 1])
  {
    forall v | v in refs ensures refs[at[p] := refs[at[p]] - 1][v] == |Holders(at - {p}, v)| {
      HoldersRemove(at, p, v);
    }
  }

  /** Unref keeps both halves: a count that reaches zero is handed to the thread that saw it. */
  lemma DropConserves(s: State, t: Thread, p: Place)
    requires Conserved(s.at, s.refs) && Accounted(s.refs, s.dead, s.cleaned) && Alive(s, p) && t !in s.dead
    ensures var s' := Drop(s, t, p); Conserved(s'.at, s'.refs) && Accounted(s'.refs, s'.dead, s'.cleaned)
  {
    UnrefConserves(s.at, s.refs, p);
    var s' := Drop(s, t, p);
    forall sv | sv in s'.refs && s'.refs[sv] == 0
      ensures sv in s'.cleaned || exists u | u in s'.dead :: s'.dead[u] == sv
    {
      if sv == s.at[p] {
        assert s'.dead[t] == sv;
      } else if sv !in s.cleaned {
        var u :| u in s.dead && s.dead[u] == sv;
        assert u in s'.dead && s'.dead[u] == sv;
      }
    }
  }

  /** Cleanup happens when the count is zero, once. */
  lemma CleanupAccounts(s: State, t: Thread)
    requires Accounted(s.refs, s.dead, s.cleaned) && t in s.dead
    ensures Accounted(s.refs, s.dead - {t}, s.cleaned + {s.dead[t]})
  {
    var dead' := s.dead - {t};
    forall sv | sv in s.refs && s.refs[sv] == 0
      ensures sv in s.cleaned + {s.dead[t]} || exists u | u in dead' :: dead'[u] == sv
    {
      if sv !in s.cleaned && sv != s.dead[t] {
        var u :| u in s.dead && s.dead[u] == sv;
        assert u in dead' && dead'[u] == sv;
      }
    }
  }

  // ---- Control

  predicate Installs(s: State, t: Thread) {
    t in s.pc && s.pc[t].Installing?
  }

  function Lookup(at: map<Place, Sv>, p: Place): Option<Sv> {
    if p in at then Some(at[p]) else None
  }

  /** The slot of `t` has not been scraped by the install in progress. */
  predicate Unscraped(phase: Phase, t: Thread) {
    phase.Published? || (phase.Scraping? && t !in phase.done)
  }

  /** All that one thread's part of the invariant speaks about. */
  datatype View = View(
    pc: Pc, mark: Mark, floor: nat, slot: Option<Sv>, local: Option<Sv>, extra: Option<Sv>,
    owns: bool, dying: bool, unscraped: bool, dropped: bool,
    installed: Option<Sv>, replaced: Option<Sv>, completed: nat)
  {
    /** A pointer that may stay in this thread's slot: the installed SuperVersion, or the one being
        replaced as long as the scrape has yet to reach the slot. */
    predicate Fresh(sv: Option<Sv>) {
      sv == installed || (unscraped && sv == replaced)
    }

    predicate Ok() {
      && (slot.Some? <==> mark.Pointer?)
      && (mark.InUse? ==> pc.InCall())
      && (mark.Pointer? ==> !pc.InCall())
      && (pc.Acquired? || pc.Holding? || pc.Referenced? || pc.Failed? ==> local.Some?)
      && (local.Some? ==> pc.Swapped? || pc.Stale? || pc.Acquired? || pc.Holding? || pc.Referenced? || pc.Failed?)
      && (extra.Some? <==> pc.Referenced? || pc == Failed(true))
      && (extra.Some? ==> extra == local)
      && (pc.HasMutex() <==> owns)
      && (dying ==> pc.Locking? || pc.Locked? || pc.Releasing? || pc.ReleaseLocked? || (pc.Installing? && dropped))
      && (mark.Pointer? ==> Fresh(slot))
      && (mark.InUse? && local.Some? ==> Fresh(local))
      && floor <= completed
      && (local.Some? ==> local.value >= floor)
    }
  }

  function ViewOf(s: State, t: Thread): View
    requires t in s.pc && t in s.mark && t in s.floor
  {
    View(s.pc[t], s.mark[t], s.floor[t], Lookup(s.at, Slot(t)), Lookup(s.at, Local(t)), Lookup(s.at, Extra(t)),
         s.mutex == Some(t), t in s.dead, Unscraped(s.phase, t), s.phase.Dropped?,
         Lookup(s.at, Installed), Lookup(s.at, Old), s.completed)
  }

  ghost predicate ThreadOk(s: State, t: Thread)
    requires t in s.pc && t in s.mark && t in s.floor
  {
    ViewOf(s, t).Ok()
  }

  /** The numbers agree with the phase of the install. */
  ghost predicate PhaseOk(s: State) {
    && Installed in s.at
    && (if s.phase.Published? then
          s.at[Installed] == s.number + 1 && Old in s.at && s.at[Old] == s.number == s.completed
        else if s.phase.Scraping? || s.phase.Draining? then
          s.at[Installed] == s.number && Old in s.at && s.at[Old] == s.completed == s.number - 1
        else if s.phase.Dropped? then
          s.at[Installed] == s.number && Old !in s.at && s.completed == s.number - 1
        else
          s.at[Installed] == s.number == s.completed && Old !in s.at)
    && (forall sv | sv in s.refs :: sv <= s.at[Installed])
    && (s.phase.Scraping? ==> s.phase.done <= s.mark.Keys)
    && (forall u | Scraped(u) in s.at ::
          && (s.phase.Draining? || (s.phase.Scraping? && u in s.phase.done))
          && Old in s.at && (s.at[Scraped(u)] == s.at[Installed] || s.at[Scraped(u)] == s.at[Old]))
  }

  ghost predicate Control(s: State) {
    && s.mark.Keys == s.pc.Keys && s.floor.Keys == s.pc.Keys && s.dead.Keys <= s.pc.Keys
    && (forall p | p in s.at && (p.Slot? || p.Local? || p.Extra?) :: p.thread in s.pc)
    && (s.mutex.Some? ==> s.mutex.value in s.pc)
    && (!s.phase.NoInstall? ==> s.mutex.Some? && Installs(s, s.mutex.value))
    && (forall t | Installs(s, t) :: !s.phase.NoInstall?)
  }

  ghost predicate Inv(s: State) {
    && Conserved(s.at, s.refs)
    && Accounted(s.refs, s.dead, s.cleaned)
    && Control(s)
    && PhaseOk(s)
    && Threads(s)
  }

  ghost predicate Threads(s: State) {
    forall t | t in s.pc :: t in s.mark && t in s.floor && ThreadOk(s, t)
  }

  lemma Parts(s: State)
    requires Inv(s)
    ensures Conserved(s.at, s.refs) && Accounted(s.refs, s.dead, s.cleaned) && Control(s) && PhaseOk(s) && Threads(s)
  {
  }

  lemma Whole(s: State)
    requires Conserved(s.at, s.refs) && Accounted(s.refs, s.dead, s.cleaned) && Control(s) && PhaseOk(s) && Threads(s)
    ensures Inv(s)
  {
  }

  /** Facts that the steps of one thread rely on. */
  lemma Known(s: State, t: Thread)
    requires Inv(s) && t in s.pc
    ensures t in s.mark && t in s.floor && ThreadOk(s, t)
    ensures Conserved(s.at, s.refs) && Accounted(s.refs, s.dead, s.cleaned)
    ensures Installed in s.at && s.completed <= s.at[Installed] && (Old in s.at ==> s.completed <= s.at[Old])
  {
  }

  // ---- The invariant rules out every assertion failure and every use after cleanup

  /** What a reader finds in its own variables is alive, and its slot is never in an unexpected state. */
  lemma ReaderSafe(s: State, t: Thread)
    requires Inv(s) && t in s.pc
    ensures t in s.mark && (s.mark[t].Pointer? ==> Alive(s, Slot(t)))
    ensures s.pc[t].Idle? ==> !s.mark[t].InUse?
    ensures s.pc[t].InCall() ==> !s.mark[t].Pointer?
    ensures Local(t) in s.at ==> Alive(s, Local(t))
    ensures s.pc[t].Holding? || s.pc[t].Referenced? || s.pc[t].Failed? ==> Alive(s, Local(t))
    ensures s.pc[t].Referenced? || s.pc[t] == Failed(true) ==> Alive(s, Extra(t)) && NotLast(s, Local(t))
  {
    hide Inv;
    hide Conserved;
    hide Accounted;
    Known(s, t);
    if Local(t) in s.at {
      HeldIsAlive(s, Local(t));
    }
    if Slot(t) in s.at {
      HeldIsAlive(s, Slot(t));
    }
    if Extra(t) in s.at {
      HeldIsAlive(s, Extra(t));
      TwoHolders(s, Local(t), Extra(t));
    }
  }

  lemma InstalledAlive(s: State)
    requires Inv(s)
    ensures Alive(s, Installed) && (Old in s.at ==> Alive(s, Old))
    ensures s.phase.Ready? ==> s.number + 1 !in s.refs
    ensures s.phase.Draining? ==> Old in s.at
  {
    Parts(s);
    hide Conserved;
    hide Accounted;
    HeldIsAlive(s, Installed);
    if Old in s.at {
      HeldIsAlive(s, Old);
    }
  }

  /** The unref in the scrape loop is never the last: super_version_ or the replaced one still counts. */
  lemma ScrapedNotLast(s: State, u: Thread)
    requires Inv(s) && Scraped(u) in s.at
    ensures NotLast(s, Scraped(u))
  {
    Parts(s);
    hide Conserved;
    hide Accounted;
    TwoHolders(s, Scraped(u), if s.at[Scraped(u)] == s.at[Old] then Old else Installed);
  }

  /** Neither is the one at thread exit. */
  lemma SlotNotLast(s: State, t: Thread)
    requires Inv(s) && t in s.pc && t in s.mark && s.mark[t].Pointer?
    ensures NotLast(s, Slot(t))
  {
    hide Inv;
    hide Conserved;
    hide Accounted;
    Known(s, t);
    TwoHolders(s, Slot(t), if s.at[Slot(t)] == s.at[Installed] then Installed else Old);
  }

  lemma IteratorAlive(s: State, id: nat)
    requires Inv(s) && Iterator(id) in s.at
    ensures Alive(s, Iterator(id))
  {
    HeldIsAlive(s, Iterator(id));
  }

  lemma InvSafe(s: State, step: Step)
    requires Inv(s) && Enabled(s, step)
    ensures Safe(s, step)
  {
    hide Inv;
    hide Alive;
    hide NotLast;
    match step {
      case Swap(t) => ReaderSafe(s, t);
      case Check(t) => ReaderSafe(s, t);
      case UnrefStale(t) => ReaderSafe(s, t);
      case Cleanup(t) => DeadIsZero(s, t);
      case RefCurrent(t) => InstalledAlive(s);
      case RefExtra(t) => ReaderSafe(s, t);
      case Return(t, id) => ReaderSafe(s, t);
      case UnrefFailed(t, id) => ReaderSafe(s, t);
      case ReleaseIterator(t, id) => IteratorAlive(s, id);
      case Publish => InstalledAlive(s);
      case ScrapeSlot(u) => SlotAlive(s, u);
      case UnrefScraped(u) => ScrapedNotLast(s, u);
      case DropOld(t) => InstalledAlive(s);
      case ThreadExit(t) =>
        ReaderSafe(s, t);
        if s.mark[t].Pointer? {
          SlotNotLast(s, t);
        }
      case _ =>
    }
  }

  lemma SlotAlive(s: State, u: Thread)
    requires Inv(s) && u in s.mark
    ensures s.mark[u].Pointer? ==> Alive(s, Slot(u))
  {
    assert Control(s);
    hide Inv;
    assert u in s.pc;
    ReaderSafe(s, u);
  }

  lemma DeadIsZero(s: State, t: Thread)
    requires Inv(s) && t in s.dead
    ensures s.dead[t] in s.refs && s.refs[s.dead[t]] == 0 && s.dead[t] !in s.cleaned
  {
  }

  lemma InitInv(s: State)
    requires Init(s)
    ensures Inv(s)
  {
    assert Holders(s.at, 1) == {Installed};
  }
}
