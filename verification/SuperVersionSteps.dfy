/** Every step of the SuperVersion protocol keeps the invariant. */
module SuperVersionSteps {
  import opened Holding
  import opened Options
  import opened SuperVersions
  import opened SuperVersionInvariant

  // ---- What a reader's step leaves alone

  /** The variables that thread `t` may change. */
  predicate Own(p: Place, t: Thread) {
    p.Iterator? || ((p.Slot? || p.Local? || p.Extra?) && p.thread == t)
  }

  ghost predicate Untouched(s: State, s': State, t: Thread) {
    forall p | !Own(p, t) :: Lookup(s'.at, p) == Lookup(s.at, p)
  }

  ghost predicate OnlyThread(s: State, s': State, t: Thread) {
    && t in s.pc && t in s.mark && t in s.floor && t in s'.pc && t in s'.mark && t in s'.floor
    && s'.pc == s.pc[t := s'.pc[t]] && s'.mark == s.mark[t := s'.mark[t]] && s'.floor == s.floor[t := s'.floor[t]]
    && (forall u | u != t :: u in s'.dead <==> u in s.dead)
    && s'.phase == s.phase && s'.number == s.number && s'.completed == s.completed
    && s'.pc[t].Installing? == s.pc[t].Installing?
    && (s'.mutex == s.mutex ||
        (!s.pc[t].Installing? && s.mutex in {None, Some(t)} && s'.mutex in {None, Some(t)}))
  }

  lemma OtherUnmoved(s: State, s': State, t: Thread, u: Thread)
    requires u in s.pc && u in s.mark && u in s.floor && u != t && OnlyThread(s, s', t) && Untouched(s, s', t)
    requires u in s'.pc && u in s'.mark && u in s'.floor
    ensures ViewOf(s', u) == ViewOf(s, u)
  {
    assert !Own(Slot(u), t) && !Own(Local(u), t) && !Own(Extra(u), t) && !Own(Installed, t) && !Own(Old, t);
  }

  lemma OthersUnmoved(s: State, s': State, t: Thread)
    requires Threads(s) && OnlyThread(s, s', t) && Untouched(s, s', t) && ViewOf(s', t).Ok()
    ensures Threads(s')
  {
    hide View.Ok, ViewOf;
    forall u | u in s'.pc ensures u in s'.mark && u in s'.floor && ThreadOk(s', u) {
      if u != t {
        assert ThreadOk(s, u);
        OtherUnmoved(s, s', t, u);
      }
    }
  }

  lemma ControlUnmoved(s: State, s': State, t: Thread)
    requires Control(s) && OnlyThread(s, s', t) && Untouched(s, s', t)
    ensures Control(s')
  {
    assert s'.pc.Keys == s.pc.Keys && s'.mark.Keys == s.mark.Keys && s'.floor.Keys == s.floor.Keys;
    assert s'.dead.Keys <= s.dead.Keys + {t};
    forall p | p in s'.at && (p.Slot? || p.Local? || p.Extra?) ensures p.thread in s'.pc {
      if !Own(p, t) {
        assert Lookup(s'.at, p) == Lookup(s.at, p);
      }
    }
    forall u | Installs(s', u) ensures !s'.phase.NoInstall? {
      assert Installs(s, u);
    }
  }

  lemma PhaseUnmoved(s: State, s': State, t: Thread)
    requires PhaseOk(s) && OnlyThread(s, s', t) && Untouched(s, s', t) && s'.refs.Keys == s.refs.Keys
    ensures PhaseOk(s')
  {
    assert s'.mark.Keys == s.mark.Keys;
    assert !Own(Installed, t) && !Own(Old, t);
    forall u ensures Lookup(s'.at, Scraped(u)) == Lookup(s.at, Scraped(u)) {
      assert !Own(Scraped(u), t);
    }
  }

  /** A step of one reader keeps the invariant if it keeps the counts and its own view in order. */
  lemma ReaderKeeps(s: State, s': State, t: Thread)
    requires Inv(s) && OnlyThread(s, s', t) && Untouched(s, s', t) && s'.refs.Keys == s.refs.Keys
    requires Conserved(s'.at, s'.refs) && Accounted(s'.refs, s'.dead, s'.cleaned) && ViewOf(s', t).Ok()
    ensures Inv(s')
  {
    OthersUnmoved(s, s', t);
    ControlUnmoved(s, s', t);
    PhaseUnmoved(s, s', t);
    hide Conserved;
    hide Accounted;
    hide Control;
    hide PhaseOk;
    hide Threads;
  }

  lemma RefAccounts(s: State, sv: Sv)
    requires Accounted(s.refs, s.dead, s.cleaned) && sv in s.refs && s.refs[sv] > 0
    ensures Accounted(s.refs[sv := s.refs[sv] + 1], s.dead, s.cleaned)
  {
  }

  lemma UnrefAccounts(s: State, sv: Sv)
    requires Accounted(s.refs, s.dead, s.cleaned) && sv in s.refs && s.refs[sv] > 1
    ensures Accounted(s.refs[sv := s.refs[sv] - 1], s.dead, s.cleaned)
  {
  }

  // ---- One thread's view of its own steps

  lemma ViewSwap(v: View)
    requires v.Ok() && v.pc.Idle? && v.installed.Some? && v.completed <= v.installed.value
    requires v.replaced.Some? ==> v.completed <= v.replaced.value
    ensures v.(pc := Swapped, mark := InUse, floor := v.completed, slot := None, local := v.slot).Ok()
  {
  }

  lemma ViewCheck(v: View, b: bool)
    requires v.Ok() && v.pc.Swapped? && (b ==> v.local.Some?)
    ensures v.(pc := if b then Holding else Stale).Ok()
  {
  }

  lemma ViewUnrefStale(v: View, b: bool)
    requires v.Ok() && v.pc.Stale?
    ensures v.(pc := Locking, local := None, dying := b).Ok()
  {
  }

  lemma ViewLock(v: View)
    requires v.Ok() && (v.pc.Locking? || v.pc.Releasing?)
    ensures v.(pc := if v.pc.Locking? then Locked else ReleaseLocked, owns := true).Ok()
  {
  }

  lemma ViewCleanup(v: View)
    requires v.Ok()
    ensures v.(dying := false).Ok()
  {
  }

  lemma ViewRefCurrent(v: View)
    requires v.Ok() && v.pc.Locked? && !v.dying && v.installed.Some? && v.completed <= v.installed.value
    ensures v.(pc := Acquired, local := v.installed).Ok()
  {
  }

  lemma ViewUnlock(v: View)
    requires v.Ok() && (v.pc.Acquired? || v.pc.ReleaseLocked?) && !v.dying
    ensures v.(pc := if v.pc.Acquired? then Holding else Idle, owns := false).Ok()
  {
  }

  lemma ViewRefExtra(v: View)
    requires v.Ok() && v.pc.Holding?
    ensures v.(pc := Referenced, extra := v.local).Ok()
  {
  }

  lemma ViewReturnPlain(v: View)
    requires v.Ok() && v.pc.Holding? && v.mark.InUse?
    ensures v.(pc := Idle, mark := Pointer, slot := v.local, local := None).Ok()
  {
  }

  lemma ViewReturnReferenced(v: View)
    requires v.Ok() && v.pc.Referenced? && v.mark.InUse?
    ensures v.(pc := Idle, mark := Pointer, slot := v.local, local := None, extra := None).Ok()
  {
  }

  lemma ViewReturnFails(v: View)
    requires v.Ok() && (v.pc.Holding? || v.pc.Referenced?) && !v.mark.InUse?
    ensures v.(pc := Failed(v.pc.Referenced?)).Ok()
  {
  }

  lemma ViewUnrefFailedPlain(v: View, b: bool)
    requires v.Ok() && v.pc == Failed(false)
    ensures v.(pc := if b then Releasing else Idle, local := None, dying := b).Ok()
  {
  }

  lemma ViewUnrefFailedReferenced(v: View)
    requires v.Ok() && v.pc == Failed(true)
    ensures v.(pc := Idle, local := None, extra := None).Ok()
  {
  }

  lemma ViewReleaseIterator(v: View, b: bool)
    requires v.Ok() && v.pc.Idle?
    ensures v.(pc := if b then Releasing else Idle, dying := b).Ok()
  {
  }

  // ---- Steps of a reader

  lemma KeepsSwap(s: State, t: Thread)
    requires Inv(s) && At(s, t, Idle) && t in s.mark && (s.mark[t].Pointer? ==> Alive(s, Slot(t)))
    ensures Inv(DoSwap(s, t))
  {
    hide Inv;
    hide Conserved;
    hide Accounted;
    Known(s, t);
    var s' := DoSwap(s, t);
    if s.mark[t].Pointer? {
      MoveConserves(s.at, s.refs, Slot(t), Local(t));
    }
    var v := ViewOf(s, t);
    ViewSwap(v);
    assert ViewOf(s', t) == v.(pc := Swapped, mark := InUse, floor := v.completed, slot := None, local := v.slot);
    ReaderKeeps(s, s', t);
  }

  lemma KeepsCheck(s: State, t: Thread)
    requires Inv(s) && At(s, t, Swapped)
    ensures Inv(DoCheck(s, t))
  {
    hide Inv;
    hide Conserved;
    hide Accounted;
    Known(s, t);
    var s' := DoCheck(s, t);
    var v := ViewOf(s, t);
    ViewCheck(v, Local(t) in s.at && s.at[Local(t)] == s.number);
    assert ViewOf(s', t) == v.(pc := if Local(t) in s.at && s.at[Local(t)] == s.number then Holding else Stale);
    ReaderKeeps(s, s', t);
  }

  lemma KeepsUnrefStale(s: State, t: Thread)
    requires Inv(s) && At(s, t, Stale) && (Local(t) in s.at ==> Alive(s, Local(t)))
    ensures Inv(DoUnrefStale(s, t))
  {
    hide Inv;
    hide Conserved;
    hide Accounted;
    Known(s, t);
    var s' := DoUnrefStale(s, t);
    if Local(t) in s.at {
      DropConserves(s, t, Local(t));
    }
    var v := ViewOf(s, t);
    ViewUnrefStale(v, t in s'.dead);
    assert ViewOf(s', t) == v.(pc := Locking, local := None, dying := t in s'.dead);
    ReaderKeeps(s, s', t);
  }

  lemma KeepsLock(s: State, t: Thread)
    requires Inv(s) && (At(s, t, Locking) || At(s, t, Releasing)) && s.mutex.None?
    ensures Inv(DoLock(s, t))
  {
    hide Inv;
    hide Conserved;
    hide Accounted;
    Known(s, t);
    var s' := DoLock(s, t);
    var v := ViewOf(s, t);
    ViewLock(v);
    assert ViewOf(s', t) == v.(pc := if v.pc.Locking? then Locked else ReleaseLocked, owns := true);
    ReaderKeeps(s, s', t);
  }

  lemma KeepsCleanup(s: State, t: Thread)
    requires Inv(s) && t in s.pc && t in s.dead && s.pc[t].HasMutex()
    ensures Inv(DoCleanup(s, t))
  {
    hide Inv;
    hide Conserved;
    hide Accounted;
    Known(s, t);
    var s' := DoCleanup(s, t);
    CleanupAccounts(s, t);
    var v := ViewOf(s, t);
    ViewCleanup(v);
    assert ViewOf(s', t) == v.(dying := false);
    ReaderKeeps(s, s', t);
  }

  lemma KeepsRefCurrent(s: State, t: Thread)
    requires Inv(s) && At(s, t, Locked) && t !in s.dead && Alive(s, Installed)
    ensures Inv(DoRefCurrent(s, t))
  {
    hide Inv;
    hide Conserved;
    hide Accounted;
    Known(s, t);
    var s' := DoRefCurrent(s, t);
    RefConserves(s.at, s.refs, Local(t), s.at[Installed]);
    RefAccounts(s, s.at[Installed]);
    var v := ViewOf(s, t);
    ViewRefCurrent(v);
    assert ViewOf(s', t) == v.(pc := Acquired, local := v.installed);
    ReaderKeeps(s, s', t);
  }

  lemma KeepsUnlock(s: State, t: Thread)
    requires Inv(s) && (At(s, t, Acquired) || At(s, t, ReleaseLocked)) && t !in s.dead
    ensures Inv(DoUnlock(s, t))
  {
    hide Inv;
    hide Conserved;
    hide Accounted;
    Known(s, t);
    var s' := DoUnlock(s, t);
    var v := ViewOf(s, t);
    ViewUnlock(v);
    assert ViewOf(s', t) == v.(pc := if v.pc.Acquired? then Holding else Idle, owns := false);
    ReaderKeeps(s, s', t);
  }

  lemma KeepsRefExtra(s: State, t: Thread)
    requires Inv(s) && At(s, t, Holding) && Alive(s, Local(t))
    ensures Inv(DoRefExtra(s, t))
  {
    hide Inv;
    hide Conserved;
    hide Accounted;
    Known(s, t);
    var s' := DoRefExtra(s, t);
    RefConserves(s.at, s.refs, Extra(t), s.at[Local(t)]);
    RefAccounts(s, s.at[Local(t)]);
    var v := ViewOf(s, t);
    ViewRefExtra(v);
    assert ViewOf(s', t) == v.(pc := Referenced, extra := v.local);
    ReaderKeeps(s, s', t);
  }

  lemma KeepsReturnPlain(s: State, t: Thread, id: nat)
    requires Inv(s) && At(s, t, Holding) && t in s.mark && s.mark[t].InUse? && Alive(s, Local(t))
    ensures Inv(DoReturn(s, t, id))
  {
    hide Inv;
    hide Conserved;
    hide Accounted;
    Known(s, t);
    var s' := DoReturn(s, t, id);
    MoveConserves(s.at, s.refs, Local(t), Slot(t));
    var v := ViewOf(s, t);
    ViewReturnPlain(v);
    assert ViewOf(s', t) == v.(pc := Idle, mark := Pointer, slot := v.local, local := None);
    ReaderKeeps(s, s', t);
  }

  lemma KeepsReturnReferenced(s: State, t: Thread, id: nat)
    requires Inv(s) && At(s, t, Referenced) && t in s.mark && s.mark[t].InUse? && Iterator(id) !in s.at
    requires Alive(s, Local(t)) && Alive(s, Extra(t))
    ensures Inv(DoReturn(s, t, id))
  {
    hide Inv;
    hide Conserved;
    hide Accounted;
    Known(s, t);
    var s' := DoReturn(s, t, id);
    MoveConserves(s.at, s.refs, Local(t), Slot(t));
    MoveConserves(Move(s.at, Local(t), Slot(t)), s.refs, Extra(t), Iterator(id));
    var v := ViewOf(s, t);
    ViewReturnReferenced(v);
    assert ViewOf(s', t) == v.(pc := Idle, mark := Pointer, slot := v.local, local := None, extra := None);
    ReaderKeeps(s, s', t);
  }

  lemma KeepsReturnFails(s: State, t: Thread, id: nat)
    requires Inv(s) && (At(s, t, Holding) || At(s, t, Referenced)) && t in s.mark && !s.mark[t].InUse?
    requires Alive(s, Local(t)) && (At(s, t, Referenced) ==> Alive(s, Extra(t)))
    ensures Inv(DoReturn(s, t, id))
  {
    hide Inv;
    hide Conserved;
    hide Accounted;
    Known(s, t);
    var s' := DoReturn(s, t, id);
    var v := ViewOf(s, t);
    ViewReturnFails(v);
    assert ViewOf(s', t) == v.(pc := Failed(v.pc.Referenced?));
    ReaderKeeps(s, s', t);
  }

  lemma KeepsUnrefFailedPlain(s: State, t: Thread, id: nat)
    requires Inv(s) && At(s, t, Failed(false)) && Alive(s, Local(t))
    ensures Inv(DoUnrefFailed(s, t, id))
  {
    hide Inv;
    hide Conserved;
    hide Accounted;
    Known(s, t);
    var s' := DoUnrefFailed(s, t, id);
    DropConserves(s, t, Local(t));
    var v := ViewOf(s, t);
    ViewUnrefFailedPlain(v, t in s'.dead);
    assert ViewOf(s', t) == v.(pc := if t in s'.dead then Releasing else Idle, local := None, dying := t in s'.dead);
    ReaderKeeps(s, s', t);
  }

  lemma FailedReferencedConserves(s: State, t: Thread, id: nat)
    requires Conserved(s.at, s.refs) && Accounted(s.refs, s.dead, s.cleaned) && t !in s.dead
    requires At(s, t, Failed(true)) && NotLast(s, Local(t)) && Alive(s, Extra(t)) && Iterator(id) !in s.at
    ensures var s' := DoUnrefFailed(s, t, id); Conserved(s'.at, s'.refs) && Accounted(s'.refs, s'.dead, s'.cleaned)
  {
    hide Conserved;
    hide Accounted;
    DropConserves(s, t, Local(t));
    var s1 := Drop(s, t, Local(t));
    MoveConserves(s1.at, s1.refs, Extra(t), Iterator(id));
  }

  lemma KeepsUnrefFailedReferenced(s: State, t: Thread, id: nat)
    requires Inv(s) && At(s, t, Failed(true)) && Iterator(id) !in s.at && NotLast(s, Local(t)) && Alive(s, Extra(t))
    ensures Inv(DoUnrefFailed(s, t, id))
  {
    hide Inv;
    hide Conserved;
    hide Accounted;
    Known(s, t);
    var s' := DoUnrefFailed(s, t, id);
    FailedReferencedConserves(s, t, id);
    var v := ViewOf(s, t);
    ViewUnrefFailedReferenced(v);
    assert ViewOf(s', t) == v.(pc := Idle, local := None, extra := None);
    ReaderKeeps(s, s', t);
  }

  lemma KeepsReleaseIterator(s: State, t: Thread, id: nat)
    requires Inv(s) && At(s, t, Idle) && Alive(s, Iterator(id))
    ensures Inv(DoReleaseIterator(s, t, id))
  {
    hide Inv;
    hide Conserved;
    hide Accounted;
    Known(s, t);
    var s' := DoReleaseIterator(s, t, id);
    DropConserves(s, t, Iterator(id));
    var v := ViewOf(s, t);
    ViewReleaseIterator(v, t in s'.dead);
    assert ViewOf(s', t) == v.(pc := if t in s'.dead then Releasing else Idle, dying := t in s'.dead);
    ReaderKeeps(s, s', t);
  }

  // ---- Steps of the install

  lemma BeginInstallControl(s: State, t: Thread)
    requires Control(s) && At(s, t, Idle) && s.mutex.None?
    ensures Control(DoBeginInstall(s, t))
  {
    var s' := DoBeginInstall(s, t);
    assert s'.pc.Keys == s.pc.Keys;
    assert Installs(s', t);
  }

  lemma ViewBeginInstall(v: View)
    requires v.Ok() && v.pc.Idle?
    ensures v.(pc := Installing, owns := true).Ok()
  {
  }

  lemma BeginInstallThreads(s: State, t: Thread)
    requires Threads(s) && At(s, t, Idle) && s.mutex.None? && s.phase.NoInstall?
    ensures Threads(DoBeginInstall(s, t))
  {
    hide View.Ok;
    var s' := DoBeginInstall(s, t);
    forall u | u in s'.pc ensures u in s'.mark && u in s'.floor && ThreadOk(s', u) {
      assert ThreadOk(s, u);
      var v := ViewOf(s, u);
      if u == t {
        ViewBeginInstall(v);
        assert ViewOf(s', u) == v.(pc := Installing, owns := true);
      } else {
        assert ViewOf(s', u) == v;
      }
    }
  }

  lemma KeepsBeginInstall(s: State, t: Thread)
    requires Inv(s) && At(s, t, Idle) && s.mutex.None?
    ensures Inv(DoBeginInstall(s, t))
  {
    assert s.phase.NoInstall?;
    BeginInstallControl(s, t);
    BeginInstallThreads(s, t);
    hide Conserved;
    hide Accounted;
    hide Threads;
    hide Control;
  }

  lemma ViewPublish(v: View, n: nat)
    requires v.Ok() && !v.unscraped
    ensures v.(unscraped := true, installed := Some(n), replaced := v.installed).Ok()
  {
  }

  lemma PublishThreads(s: State)
    requires Threads(s) && s.phase.Ready? && Installed in s.at
    ensures Threads(DoPublish(s))
  {
    hide View.Ok;
    var s' := DoPublish(s);
    forall u | u in s'.pc ensures ThreadOk(s', u) {
      assert ThreadOk(s, u);
      var v := ViewOf(s, u);
      ViewPublish(v, s.number + 1);
      assert ViewOf(s', u) == v.(unscraped := true, installed := Some(s.number + 1), replaced := v.installed);
    }
  }

  /** The reference of super_version_ moves to the local variable, and the new SuperVersion starts with one. */
  lemma PublishConserves(s: State)
    requires Conserved(s.at, s.refs) && Installed in s.at && Old !in s.at && s.number + 1 !in s.refs
    ensures Conserved(DoPublish(s).at, DoPublish(s).refs)
  {
    MoveConserves(s.at, s.refs, Installed, Old);
    var at1: map<Place, Sv> := Move(s.at, Installed, Old);
    var at2 := at1[Installed := s.number + 1];
    assert at2 == DoPublish(s).at;
    var refs2 := s.refs[s.number + 1 := 1];
    forall sv | sv in refs2 ensures refs2[sv] == |Holders(at2, sv)| {
      if sv == s.number + 1 {
        assert Holders(at2, sv) == {Installed};
      } else {
        assert Holders(at2, sv) == Holders(at1, sv);
      }
    }
  }

  lemma PublishAccounts(s: State, n: Sv)
    requires Accounted(s.refs, s.dead, s.cleaned) && n !in s.refs
    ensures Accounted(s.refs[n := 1], s.dead, s.cleaned)
  {
    forall sv | sv in s.refs[n := 1] && s.refs[n := 1][sv] == 0
      ensures sv in s.cleaned || exists t | t in s.dead :: s.dead[t] == sv
    {
      assert sv in s.refs && s.refs[sv] == 0;
    }
  }

  lemma ControlInstall(s: State, s': State)
    requires Control(s) && s'.pc == s.pc && s'.mark.Keys == s.mark.Keys && s'.floor == s.floor
    requires s'.dead.Keys <= s.pc.Keys && s'.mutex == s.mutex && !s.phase.NoInstall? && !s'.phase.NoInstall?
    requires forall p | p in s'.at :: p in s.at || p.Old? || p.Scraped?
    ensures Control(s')
  {
    assert Installs(s', s'.mutex.value);
  }

  lemma PublishPhase(s: State)
    requires PhaseOk(s) && s.phase.Ready?
    ensures PhaseOk(DoPublish(s)) && s.number + 1 !in s.refs && Installed in s.at && Old !in s.at
  {
  }

  lemma PublishControl(s: State)
    requires Control(s) && s.phase.Ready? && Installed in s.at
    ensures Control(DoPublish(s))
  {
    hide Control;
    ControlParts(s);
    ControlInstall(s, DoPublish(s));
  }

  lemma ControlParts(s: State)
    requires Control(s)
    ensures s.mark.Keys == s.pc.Keys && s.floor.Keys == s.pc.Keys && s.dead.Keys <= s.pc.Keys
  {
  }

  lemma KeepsPublish(s: State)
    requires Inv(s) && s.phase.Ready?
    ensures Inv(DoPublish(s))
  {
    hide Inv;
    hide Conserved;
    hide Accounted;
    hide Control;
    hide PhaseOk;
    hide Threads;
    Parts(s);
    PublishPhase(s);
    PublishControl(s);
    PublishThreads(s);
    PublishConserves(s);
    PublishAccounts(s, s.number + 1);
    Whole(DoPublish(s));
  }

  lemma KeepsBump(s: State)
    requires Inv(s) && s.phase.Published?
    ensures Inv(DoBump(s))
  {
    var s' := DoBump(s);
    hide Conserved;
    hide Accounted;
    hide View.Ok;
    ControlInstall(s, s');
    forall u | u in s'.pc ensures ThreadOk(s', u) {
      assert ThreadOk(s, u);
      assert ViewOf(s', u) == ViewOf(s, u);
    }
  }

  lemma ViewScrapeSlot(v: View)
    requires v.Ok()
    ensures v.(mark := Obsolete, slot := None, unscraped := false).Ok()
  {
  }

  lemma ScrapeThreads(s: State, w: Thread)
    requires Threads(s) && s.phase.Scraping? && w in s.pc && w in s.mark
    requires s.mark[w].Pointer? ==> Slot(w) in s.at
    ensures Threads(DoScrapeSlot(s, w))
  {
    var s' := DoScrapeSlot(s, w);
    forall u | u in s'.pc ensures ThreadOk(s', u) {
      assert ThreadOk(s, u);
      if u == w {
        ViewScrapeSlot(ViewOf(s, u));
        assert ViewOf(s', u) == ViewOf(s, u).(mark := Obsolete, slot := None, unscraped := false);
      } else {
        assert ViewOf(s', u) == ViewOf(s, u);
      }
    }
  }

  lemma ScrapePhase(s: State, w: Thread)
    requires PhaseOk(s) && s.phase.Scraping? && w in s.mark
    requires s.mark[w].Pointer? ==> Slot(w) in s.at && (s.at[Slot(w)] == s.at[Installed] || s.at[Slot(w)] == s.at[Old])
    ensures PhaseOk(DoScrapeSlot(s, w))
  {
    var s' := DoScrapeSlot(s, w);
    assert s'.mark.Keys == s.mark.Keys;
  }

  lemma ScrapeKnown(s: State, w: Thread)
    requires Control(s) && PhaseOk(s) && Threads(s) && s.phase.Scraping? && w in s.mark && w !in s.phase.done
    ensures w in s.pc && Scraped(w) !in s.at
    ensures s.mark[w].Pointer? ==> Slot(w) in s.at && (s.at[Slot(w)] == s.at[Installed] || s.at[Slot(w)] == s.at[Old])
  {
    assert ThreadOk(s, w);
  }

  lemma ScrapeControl(s: State, w: Thread)
    requires Control(s) && s.phase.Scraping? && w in s.mark && (s.mark[w].Pointer? ==> Slot(w) in s.at)
    ensures Control(DoScrapeSlot(s, w))
  {
    hide Control;
    ControlParts(s);
    var s' := DoScrapeSlot(s, w);
    assert s'.mark.Keys == s.mark.Keys;
    ControlInstall(s, s');
  }

  lemma KeepsScrapeSlot(s: State, w: Thread)
    requires Inv(s) && s.phase.Scraping? && w in s.mark && w !in s.phase.done
    ensures Inv(DoScrapeSlot(s, w))
  {
    hide Inv;
    hide Conserved;
    hide Accounted;
    hide Control;
    hide PhaseOk;
    hide Threads;
    Parts(s);
    ScrapeKnown(s, w);
    ScrapeThreads(s, w);
    ScrapePhase(s, w);
    ScrapeControl(s, w);
    if s.mark[w].Pointer? {
      MoveConserves(s.at, s.refs, Slot(w), Scraped(w));
    }
    Whole(DoScrapeSlot(s, w));
  }

  lemma KeepsEndScrape(s: State)
    requires Inv(s) && s.phase.Scraping? && s.phase.done == s.mark.Keys
    ensures Inv(s.(phase := Draining))
  {
    var s' := s.(phase := Draining);
    hide Conserved;
    hide Accounted;
    hide View.Ok;
    ControlInstall(s, s');
    forall u | u in s'.pc ensures ThreadOk(s', u) {
      assert ThreadOk(s, u);
      assert ViewOf(s', u) == ViewOf(s, u);
    }
  }

  lemma UnrefScrapedRest(s: State, w: Thread)
    requires Control(s) && PhaseOk(s) && s.phase.Draining? && NotLast(s, Scraped(w))
    ensures Control(Drop(s, w, Scraped(w))) && PhaseOk(Drop(s, w, Scraped(w)))
  {
    hide Control;
    ControlParts(s);
    ControlInstall(s, Drop(s, w, Scraped(w)));
  }

  lemma UnrefScrapedThreads(s: State, w: Thread)
    requires Threads(s) && NotLast(s, Scraped(w))
    ensures Threads(Drop(s, w, Scraped(w)))
  {
    hide View.Ok;
    var s' := Drop(s, w, Scraped(w));
    forall u | u in s'.pc ensures u in s'.mark && u in s'.floor && ThreadOk(s', u) {
      assert ThreadOk(s, u);
      assert ViewOf(s', u) == ViewOf(s, u);
    }
  }

  lemma KeepsUnrefScraped(s: State, w: Thread)
    requires Inv(s) && s.phase.Draining? && NotLast(s, Scraped(w))
    ensures Inv(Drop(s, w, Scraped(w)))
  {
    hide Inv;
    hide Conserved;
    hide Accounted;
    hide Control;
    hide PhaseOk;
    hide Threads;
    Parts(s);
    UnrefConserves(s.at, s.refs, Scraped(w));
    UnrefAccounts(s, s.at[Scraped(w)]);
    UnrefScrapedRest(s, w);
    UnrefScrapedThreads(s, w);
    Whole(Drop(s, w, Scraped(w)));
  }

  lemma ViewDropOld(v: View, b: bool)
    requires v.Ok() && !v.unscraped && (b ==> v.pc.Installing?)
    ensures v.(replaced := None, dropped := true, dying := v.dying || b).Ok()
  {
  }

  lemma DropOldThreads(s: State, t: Thread)
    requires Threads(s) && At(s, t, Installing) && s.phase.Draining? && Alive(s, Old)
    ensures Threads(DoDropOld(s, t))
  {
    hide View.Ok;
    var s' := DoDropOld(s, t);
    forall u | u in s'.pc ensures ThreadOk(s', u) {
      assert ThreadOk(s, u);
      var b := u == t && t in s'.dead;
      ViewDropOld(ViewOf(s, u), b);
      assert ViewOf(s', u) == ViewOf(s, u).(replaced := None, dropped := true, dying := u in s.dead || b);
    }
  }

  lemma DropOldRest(s: State, t: Thread)
    requires Control(s) && PhaseOk(s) && At(s, t, Installing) && s.phase.Draining? && Alive(s, Old)
    requires forall p | p in s.at :: !p.Scraped?
    ensures Control(DoDropOld(s, t)) && PhaseOk(DoDropOld(s, t))
  {
    hide Control;
    ControlParts(s);
    ControlInstall(s, DoDropOld(s, t));
  }

  lemma KeepsDropOld(s: State, t: Thread)
    requires Inv(s) && At(s, t, Installing) && s.phase.Draining? && (forall p | p in s.at :: !p.Scraped?)
    requires Alive(s, Old)
    ensures Inv(DoDropOld(s, t))
  {
    hide Inv;
    hide Conserved;
    hide Accounted;
    hide Control;
    hide PhaseOk;
    hide Threads;
    Known(s, t);
    Parts(s);
    DropConserves(s, t, Old);
    DropOldThreads(s, t);
    DropOldRest(s, t);
    Whole(DoDropOld(s, t));
  }

  lemma ViewEndInstall(v: View, n: nat)
    requires v.Ok() && n >= v.completed
    ensures !v.owns ==> v.(completed := n, dropped := false).Ok()
    ensures v.pc.Installing? && !v.dying ==> v.(pc := Idle, owns := false, completed := n, dropped := false).Ok()
  {
  }

  lemma EndInstallThreads(s: State, t: Thread)
    requires Threads(s) && At(s, t, Installing) && s.phase.Dropped? && t !in s.dead && s.number >= s.completed
    requires s.mutex == Some(t)
    ensures Threads(DoEndInstall(s, t))
  {
    hide View.Ok;
    var s' := DoEndInstall(s, t);
    forall u | u in s'.pc ensures ThreadOk(s', u) {
      assert ThreadOk(s, u);
      var v := ViewOf(s, u);
      ViewEndInstall(v, s.number);
      assert u != t ==> ViewOf(s', u) == v.(completed := s.number, dropped := false);
      assert u == t ==> ViewOf(s', u) == v.(pc := Idle, owns := false, completed := s.number, dropped := false);
    }
  }

  lemma EndInstallControl(s: State, t: Thread)
    requires Control(s) && Threads(s) && At(s, t, Installing)
    ensures s.mutex == Some(t) && Control(DoEndInstall(s, t))
  {
    var s' := DoEndInstall(s, t);
    assert ThreadOk(s, t);
    assert s'.pc.Keys == s.pc.Keys;
    forall u | u in s.pc && u != t ensures !s.pc[u].Installing? {
      assert ThreadOk(s, u);
    }
  }

  lemma EndInstallPhase(s: State, t: Thread)
    requires PhaseOk(s) && s.phase.Dropped?
    ensures PhaseOk(DoEndInstall(s, t)) && s.number >= s.completed
  {
  }

  lemma KeepsEndInstall(s: State, t: Thread)
    requires Inv(s) && At(s, t, Installing) && s.phase.Dropped? && t !in s.dead
    ensures Inv(DoEndInstall(s, t))
  {
    hide Inv;
    hide Conserved;
    hide Accounted;
    hide Control;
    hide PhaseOk;
    hide Threads;
    Parts(s);
    EndInstallControl(s, t);
    EndInstallPhase(s, t);
    EndInstallThreads(s, t);
    Whole(DoEndInstall(s, t));
  }

  // ---- Threads come and go

  lemma ThreadStartControl(s: State, t: Thread)
    requires Control(s) && t !in s.pc
    ensures Control(DoThreadStart(s, t))
    ensures Slot(t) !in s.at && Local(t) !in s.at && Extra(t) !in s.at && t !in s.dead && s.mutex != Some(t)
  {
    var s' := DoThreadStart(s, t);
    assert s'.pc.Keys == s.pc.Keys + {t} && s'.mark.Keys == s.mark.Keys + {t} && s'.floor.Keys == s.floor.Keys + {t};
    forall u | Installs(s', u) ensures !s'.phase.NoInstall? {
      assert Installs(s, u);
    }
    assert !s'.phase.NoInstall? ==> Installs(s', s'.mutex.value);
  }

  lemma ThreadStartThreads(s: State, t: Thread)
    requires Threads(s) && t !in s.pc && !s.phase.Scraping?
    requires Slot(t) !in s.at && Local(t) !in s.at && Extra(t) !in s.at && t !in s.dead && s.mutex != Some(t)
    ensures Threads(DoThreadStart(s, t))
  {
    var s' := DoThreadStart(s, t);
    assert ViewOf(s', t).Ok();
    hide View.Ok;
    forall u | u in s'.pc && u != t ensures u in s'.mark && u in s'.floor && ThreadOk(s', u) {
      assert ThreadOk(s, u);
      assert ViewOf(s', u) == ViewOf(s, u);
    }
  }

  lemma KeepsThreadStart(s: State, t: Thread)
    requires Inv(s) && t !in s.pc && !s.phase.Scraping?
    ensures Inv(DoThreadStart(s, t))
  {
    hide Inv;
    hide Conserved;
    hide Accounted;
    hide Control;
    hide Threads;
    Parts(s);
    ThreadStartControl(s, t);
    ThreadStartThreads(s, t);
    Whole(DoThreadStart(s, t));
  }

  /** An idle thread leaves nothing behind but its slot. */
  lemma IdleKnown(s: State, t: Thread)
    requires Threads(s) && At(s, t, Idle)
    ensures Local(t) !in s.at && Extra(t) !in s.at && s.mutex != Some(t) && t !in s.dead
    ensures t in s.mark && (Slot(t) in s.at <==> s.mark[t].Pointer?)
  {
    assert ThreadOk(s, t);
  }

  lemma ThreadExitControl(s: State, t: Thread)
    requires Control(s) && t in s.pc && t in s.mark && (s.mark[t].Pointer? ==> NotLast(s, Slot(t)))
    requires Local(t) !in s.at && Extra(t) !in s.at && s.mutex != Some(t) && t !in s.dead
    requires Slot(t) in s.at <==> s.mark[t].Pointer?
    ensures Control(DoThreadExit(s, t))
  {
    var s' := DoThreadExit(s, t);
    assert s'.pc.Keys == s.pc.Keys - {t} && s'.mark.Keys == s.mark.Keys - {t} && s'.floor.Keys == s.floor.Keys - {t};
    assert Slot(t) !in s'.at && s'.dead.Keys == s.dead.Keys;
    forall u | Installs(s', u) ensures !s'.phase.NoInstall? {
      assert Installs(s, u);
    }
    assert !s'.phase.NoInstall? ==> Installs(s', s'.mutex.value);
  }

  lemma ThreadExitPhase(s: State, t: Thread)
    requires PhaseOk(s) && !s.phase.Scraping? && t in s.mark && (s.mark[t].Pointer? ==> NotLast(s, Slot(t)))
    ensures PhaseOk(DoThreadExit(s, t))
  {
  }

  lemma ThreadExitThreads(s: State, t: Thread)
    requires Threads(s) && t in s.mark && (s.mark[t].Pointer? ==> NotLast(s, Slot(t)))
    ensures Threads(DoThreadExit(s, t))
  {
    hide View.Ok;
    var s' := DoThreadExit(s, t);
    forall u | u in s'.pc ensures u in s'.mark && u in s'.floor && ThreadOk(s', u) {
      assert ThreadOk(s, u);
      assert ViewOf(s', u) == ViewOf(s, u);
    }
  }

  lemma KeepsThreadExit(s: State, t: Thread)
    requires Inv(s) && At(s, t, Idle) && !s.phase.Scraping? && t in s.mark
    requires s.mark[t].Pointer? ==> NotLast(s, Slot(t))
    ensures Inv(DoThreadExit(s, t))
  {
    hide Inv;
    hide Conserved;
    hide Accounted;
    hide Control;
    hide PhaseOk;
    hide Threads;
    Parts(s);
    IdleKnown(s, t);
    ThreadExitControl(s, t);
    ThreadExitPhase(s, t);
    ThreadExitThreads(s, t);
    if s.mark[t].Pointer? {
      UnrefConserves(s.at, s.refs, Slot(t));
      UnrefAccounts(s, s.at[Slot(t)]);
    }
    Whole(DoThreadExit(s, t));
  }
}
