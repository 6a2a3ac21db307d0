/** Whole runs of any number of threads: what the counts mean, and what reset() breaks. */
module SmartPtrLaws {
  import opened Counting
  import opened Options
  import opened SmartPtr
  import opened SmartPtrSteps

  // ------------------------------------------------------------------- runs

  /** Before anything happened: any set of idle threads, no pointer yet. */
  predicate Initial(s: State) {
    s.blocks == map[] && s.handles == map[] && forall t :: t in s.threads ==> s.threads[t].Idle?
  }

  predicate Runnable(s: State, run: seq<Action>)
    decreases |run|
  {
    run != [] ==> Enabled(s, run[0]) && Disciplined(run[0]) && Runnable(Apply(s, run[0]), run[1..])
  }

  /** The state after an interleaving in which handles end by destructor or operator=. */
  function Run(s: State, run: seq<Action>): State
    requires Runnable(s, run)
    decreases |run|
  {
    if run == [] then s else Run(Apply(s, run[0]), run[1..])
  }

  ghost predicate Reachable(s: State) {
    exists s0, run :: Initial(s0) && Runnable(s0, run) && Run(s0, run) == s
  }

  lemma {:induction false} RunKeepsInv(s: State, run: seq<Action>)
    requires Inv(s) && Runnable(s, run)
    ensures Inv(Run(s, run)) && Extends(s, Run(s, run))
    decreases |run|
  {
    if run != [] {
      KeepInv(s, run[0]);
      RunKeepsInv(Apply(s, run[0]), run[1..]);
    }
  }

  lemma ReachableInv(s: State)
    requires Reachable(s)
    ensures Inv(s)
  {
    var s0, run :| Initial(s0) && Runnable(s0, run) && Run(s0, run) == s;
    RunKeepsInv(s0, run);
  }

  /** In every interleaving the strong count is the number of settled SharedPtrs plus the
      threads holding a strong unit plus at most one probing lock(); the weak count covers
      every handle of either kind and every handle being taken apart. */
  lemma CountsAreOwners(s: State, b: Bid)
    requires Reachable(s) && b in s.blocks
    ensures s.blocks[b].strong == |set h | h in s.handles && s.handles[h].kind.Shared? && s.handles[h].dest == Some(b)|
                                + Count(s.threads, TStrong(b)) + Count(s.threads, TProbe(b))
    ensures s.blocks[b].weak == WeakUnits(s, b)
    ensures Count(s.threads, TProbe(b)) > 0 ==> Dead(s, b)
  {
    ReachableInv(s);
    LedgerOf(s, b);
    SettledOwners(s.handles, b);
    if Count(s.threads, TProbe(b)) > 0 {
      ProbesAreDead(s, b);
    }
  }

  lemma LedgerOf(s: State, b: Bid)
    requires Ledgers(s) && b in s.blocks
    ensures Ledger(s, b, s.blocks[b])
  {
  }

  lemma SettledOwners(hs: map<Hid, Handle>, b: Bid)
    ensures Count(hs, HStrong(b)) == |set h | h in hs && hs[h].kind.Shared? && hs[h].dest == Some(b)|
  {
    assert Owners(hs, HStrong(b)) == set h | h in hs && hs[h].kind.Shared? && hs[h].dest == Some(b);
  }

  lemma ProbesAreDead(s: State, b: Bid)
    requires Shapes(s) && Count(s.threads, TProbe(b)) > 0
    ensures Dead(s, b)
  {
    var t := Witness(s.threads, TProbe(b));
    assert PcOk(s, s.threads[t]);
  }

  /** While a SharedPtr to the object exists, the object is neither deleted nor about to be. */
  lemma LiveHandleProtects(s: State, h: Hid, b: Bid)
    requires Reachable(s) && h in s.handles && s.handles[h].kind.Shared? && s.handles[h].dest == Some(b)
    ensures b in s.blocks && s.blocks[b].deletes == 0 && s.blocks[b].frees == 0
    ensures forall t :: t in s.threads && s.threads[t].DeleteObject? ==> s.threads[t].v.dest != Some(b)
  {
    ReachableInv(s);
    assert HandleOk(s, s.handles[h]) && Ledger(s, b, s.blocks[b]);
    Member(s.handles, h, HStrong(b));
    Member(s.handles, h, HWeak(b));
    forall t | t in s.threads && s.threads[t].DeleteObject? ensures s.threads[t].v.dest != Some(b) {
      assert PcOk(s, s.threads[t]);
      if s.threads[t].v.dest == Some(b) {
        Member(s.threads, t, TDelete(b));
      }
    }
  }

  /** Which unit keeps the block in memory for the next step of a thread. */
  lemma Covered(s: State, t: Tid, b: Bid)
    requires Shapes(s) && t in s.threads && Touches(s.threads[t]) == Some(b) && !s.threads[t].FreeRef?
    ensures b in s.blocks && WeakUnits(s, b) > 0
  {
    var pc := s.threads[t];
    assert PcOk(s, pc);
    if pc.DropStrong? || pc.DeleteObject? || pc.DropWeak? {
      Member(s.threads, t, TWeak(b));
    } else {
      CoveredByHandle(s, Pin(pc).value, b);
    }
  }

  lemma CoveredByHandle(s: State, h: Hid, b: Bid)
    requires h in s.handles && HandleOk(s, s.handles[h])
    requires s.handles[h].ref == Some(b) || (s.handles[h].kind.Shared? && s.handles[h].dest == Some(b))
    ensures WeakUnits(s, b) > 0
  {
    Member(s.handles, h, HWeak(b));
  }

  lemma NotFreed(s: State, t: Tid, b: Bid)
    requires Shapes(s) && Ledgers(s) && t in s.threads && Touches(s.threads[t]) == Some(b)
    ensures b in s.blocks && s.blocks[b].frees == 0
  {
    if s.threads[t].FreeRef? {
      assert PcOk(s, s.threads[t]);
      Member(s.threads, t, TFree(b));
    } else {
      Covered(s, t, b);
    }
    LedgerOf(s, b);
  }

  lemma CanGoOn(s: State, t: Tid)
    requires t in s.threads && !s.threads[t].Idle? && PcOk(s, s.threads[t])
    requires s.threads[t].LockSpin? ==> s.blocks[s.threads[t].b].spin.None?
    ensures CanContinue(s, t)
  {
  }

  lemma HolderGoesOn(s: State, t: Tid)
    requires Shapes(s) && Spins(s) && t in s.threads && s.threads[t].LockSpin? && s.blocks[s.threads[t].b].spin.Some?
    ensures exists u :: u in s.threads && u != t && Critical(s.threads[u]) && CanContinue(s, u)
  {
    var u := s.blocks[s.threads[t].b].spin.value;
    assert InCritical(s.threads[u], s.threads[t].b);
    CanGoOn(s, u);
  }

  /** No step ever touches a freed control block, and a step is blocked only by another
      thread that holds the spin lock and can itself go on. */
  lemma NoUseAfterFree(s: State, t: Tid)
    requires Reachable(s) && t in s.threads && !s.threads[t].Idle?
    ensures Touches(s.threads[t]).Some? ==>
              Touches(s.threads[t]).value in s.blocks && s.blocks[Touches(s.threads[t]).value].frees == 0
    ensures CanContinue(s, t) ||
            (s.threads[t].LockSpin? && exists u :: u in s.threads && u != t && Critical(s.threads[u]) && CanContinue(s, u))
  {
    ReachableInv(s);
    if Touches(s.threads[t]).Some? {
      NotFreed(s, t, Touches(s.threads[t]).value);
    }
    if s.threads[t].LockSpin? && s.blocks[s.threads[t].b].spin.Some? {
      HolderGoesOn(s, t);
    } else {
      CanGoOn(s, t);
    }
  }

  /** The object is deleted at most once and the block freed at most once, never while an
      owner is left; and once the pointers are gone and the threads rest, exactly once. */
  lemma DeletedExactlyOnce(s: State, b: Bid)
    requires Reachable(s) && b in s.blocks
    ensures s.blocks[b].deletes <= 1 && s.blocks[b].frees <= 1
    ensures s.blocks[b].deletes == 1 ==> Dead(s, b)
    ensures s.blocks[b].frees == 1 ==> WeakUnits(s, b) == 0
    ensures (forall t :: t in s.threads ==> s.threads[t].Idle?) ==>
              && (s.blocks[b].deletes == 1 <==> forall h :: h in s.handles ==> !HStrong(b)(s.handles[h]))
              && (s.blocks[b].frees == 1 <==> forall h :: h in s.handles ==> !HWeak(b)(s.handles[h]))
  {
    ReachableInv(s);
    assert Ledger(s, b, s.blocks[b]);
    if forall t :: t in s.threads ==> s.threads[t].Idle? {
      AllIdle(s, b);
      NoneCounted(s.handles, HStrong(b));
      NoneCounted(s.handles, HWeak(b));
    }
  }

  lemma AllIdle(s: State, b: Bid)
    requires forall t :: t in s.threads ==> s.threads[t].Idle?
    ensures Count(s.threads, TStrong(b)) == Count(s.threads, TWeak(b)) == 0
    ensures Count(s.threads, TDelete(b)) == Count(s.threads, TFree(b)) == 0
  {
    NoneCounted(s.threads, TStrong(b));
    NoneCounted(s.threads, TWeak(b));
    NoneCounted(s.threads, TDelete(b));
    NoneCounted(s.threads, TFree(b));
  }

  /** lock() never revives: once an object has no strong owner, no later state of any run
      has one, however many threads race to lock it. */
  lemma NoRevival(s: State, run: seq<Action>, b: Bid)
    requires Reachable(s) && Runnable(s, run) && b in s.blocks && Dead(s, b)
    ensures b in Run(s, run).blocks && Dead(Run(s, run), b)
    ensures forall h :: h in Run(s, run).handles ==> !HStrong(b)(Run(s, run).handles[h])
  {
    ReachableInv(s);
    RunKeepsInv(s, run);
    var s' := Run(s, run);
    forall h | h in s'.handles ensures !HStrong(b)(s'.handles[h]) {
      if HStrong(b)(s'.handles[h]) {
        Member(s'.handles, h, HStrong(b));
      }
    }
  }

  /** lock() succeeds exactly when a strong owner exists at its increment, and then the
      SharedPtr it builds points at an object that is still there. */
  lemma LockDecides(s: State, t: Tid)
    requires Reachable(s) && CanContinue(s, t)
    ensures s.threads[t].LockInc? ==>
              (Step(s, t).threads[t].LockLeave? <==> !Dead(s, s.threads[t].b))
    ensures s.threads[t].LockBuild? ==>
              && Step(s, t).threads[t] == IncWeak(s.threads[t].h, Handle(Shared, Some(s.threads[t].b), Some(s.threads[t].b)), s.threads[t].w)
              && s.threads[t].b in s.blocks && s.blocks[s.threads[t].b].deletes == 0
  {
    ReachableInv(s);
    var pc := s.threads[t];
    assert PcOk(s, pc);
    if pc.LockInc? {
      LedgerLockInc(s, t, pc.b);
    } else if pc.LockBuild? {
      StillKnown(s, t);
      BuildingIsAlive(s, t);
    }
  }

  lemma BuildingIsAlive(s: State, t: Tid)
    requires Ledgers(s) && t in s.threads && s.threads[t].LockBuild? && s.threads[t].b in s.blocks
    ensures s.blocks[s.threads[t].b].deletes == 0
  {
    Member(s.threads, t, TStrong(s.threads[t].b));
    LedgerOf(s, s.threads[t].b);
  }

  // --------------------------------------------------------- explicit reset()

  /** Thread t runs on alone until it is idle (or n steps are done). */
  function RunAlone(s: State, t: Tid, n: nat): State
    decreases n
  {
    if n == 0 || !CanContinue(s, t) then s else RunAlone(Step(s, t), t, n - 1)
  }

  /** The handle and the block after an uninterrupted h.reset(). */
  function ResetHandle(v: Handle, k: RefData): Handle {
    if v.kind.Shared? then
      Handle(Shared, if k.strong == 1 then None else v.dest, if k.weak == 1 then None else v.ref)
    else
      Handle(Weak, None, if k.weak == 1 then None else v.ref)
  }

  function ReleasedBlock(v: Handle, k: RefData): RefData {
    if v.kind.Shared? then
      k.(strong := k.strong - 1, weak := k.weak - 1,
         deletes := k.deletes + One(k.strong == 1), frees := k.frees + One(k.weak == 1))
    else
      k.(weak := k.weak - 1, frees := k.frees + One(k.weak == 1))
  }

  /** A handle that owns a unit of a known block. */
  predicate Owning(s: State, h: Hid) {
    && h in s.handles && s.handles[h].ref.Some? && s.handles[h].ref.value in s.blocks
    && (s.handles[h].kind.Shared? ==> s.handles[h].dest == s.handles[h].ref)
  }

  function ResetState(s: State, t: Tid, h: Hid): State
    requires Enabled(s, Begin(t, Reset(h)))
  {
    RunAlone(Start(s, t, Reset(h)), t, 4)
  }

  function ReleasedState(s: State, t: Tid, h: Hid): State
    requires Enabled(s, Begin(t, Release(h)))
  {
    RunAlone(Start(s, t, Release(h)), t, 4)
  }

  /** The steps of a release from the second decrement on. */
  lemma FinishWeak(s: State, t: Tid, h: Hid, v: Handle, after: After, n: nat)
    requires t in s.threads && s.threads[t] == DropWeak(h, v, after) && !after.Assign?
    requires v.ref.Some? && v.ref.value in s.blocks && n >= 2
    ensures var k := s.blocks[v.ref.value];
            var last := k.weak == 1;
            var s1 := SetBlock(s, v.ref.value, k.(weak := k.weak - 1, frees := k.frees + One(last)));
            RunAlone(s, t, n) == AfterReset(s1, t, h, if last then v.(ref := None) else v, after)
  {
    var k := s.blocks[v.ref.value];
    var s1 := Step(s, t);
    if k.weak == 1 {
      var s2 := Step(s1, t);
      assert s2.blocks == s.blocks[v.ref.value := k.(weak := 0, frees := k.frees + 1)];
      assert s2.threads[t].Idle?;
      assert RunAlone(s2, t, n - 2) == s2;
      assert s1.threads[t := Idle] == s.threads[t := Idle];
    } else {
      assert s1.threads[t].Idle?;
      assert RunAlone(s1, t, n - 1) == s1;
    }
  }

  /** s' is s after one uninterrupted release of h. */
  predicate ReleasedTo(s: State, h: Hid, after: After, s': State)
    requires Owning(s, h)
  {
    var v := s.handles[h];
    var b := v.ref.value;
    && s'.threads == s.threads
    && s'.blocks == s.blocks[b := ReleasedBlock(v, s.blocks[b])]
    && s'.handles == if after.Destroy? then s.handles - {h} else s.handles[h := ResetHandle(v, s.blocks[b])]
  }

  lemma ReleaseWeakEffect(s: State, t: Tid, h: Hid, after: After)
    requires t in s.threads && s.threads[t].Idle? && Owning(s, h) && !after.Assign? && s.handles[h].kind.Weak?
    ensures ReleasedTo(s, h, after, RunAlone(StartReset(s, t, h, after), t, 4))
  {
    var v := s.handles[h];
    assert s.handles[h := ResetHandle(v, s.blocks[v.ref.value])] == (s.handles - {h})[h := ResetHandle(v, s.blocks[v.ref.value])];
    assert s.threads[t := Idle] == s.threads;
    FinishWeak(StartReset(s, t, h, after), t, h, v, after, 4);
  }

  lemma ReleaseLastShared(s: State, t: Tid, h: Hid, after: After)
    requires t in s.threads && s.threads[t].Idle? && Owning(s, h) && !after.Assign? && s.handles[h].kind.Shared?
    requires s.blocks[s.handles[h].ref.value].strong == 1
    ensures ReleasedTo(s, h, after, RunAlone(StartReset(s, t, h, after), t, 4))
  {
    var v := s.handles[h];
    var s1 := Step(StartReset(s, t, h, after), t);
    var s2 := Step(s1, t);
    FinishWeak(s2, t, h, v.(dest := None), after, 2);
    Resettled(s, t, h, ResetHandle(s.handles[h], s.blocks[s.handles[h].ref.value]));
  }

  lemma ReleaseOtherShared(s: State, t: Tid, h: Hid, after: After)
    requires t in s.threads && s.threads[t].Idle? && Owning(s, h) && !after.Assign? && s.handles[h].kind.Shared?
    requires s.blocks[s.handles[h].ref.value].strong != 1
    ensures ReleasedTo(s, h, after, RunAlone(StartReset(s, t, h, after), t, 4))
  {
    var s1 := Step(StartReset(s, t, h, after), t);
    FinishWeak(s1, t, h, s.handles[h], after, 3);
    Resettled(s, t, h, ResetHandle(s.handles[h], s.blocks[s.handles[h].ref.value]));
  }

  lemma Resettled(s: State, t: Tid, h: Hid, v: Handle)
    requires t in s.threads && s.threads[t].Idle?
    ensures s.threads[t := Idle] == s.threads && (s.handles - {h})[h := v] == s.handles[h := v]
  {
  }

  lemma ReleaseSharedEffect(s: State, t: Tid, h: Hid, after: After)
    requires t in s.threads && s.threads[t].Idle? && Owning(s, h) && !after.Assign? && s.handles[h].kind.Shared?
    ensures ReleasedTo(s, h, after, RunAlone(StartReset(s, t, h, after), t, 4))
  {
    if s.blocks[s.handles[h].ref.value].strong == 1 {
      ReleaseLastShared(s, t, h, after);
    } else {
      ReleaseOtherShared(s, t, h, after);
    }
  }

  /** Destroying a handle and resetting it give the same state except for the handle itself,
      which reset() keeps. */
  lemma ResetVersusRelease(s: State, t: Tid, h: Hid)
    requires Enabled(s, Begin(t, Reset(h))) && Owning(s, h)
    ensures ReleasedTo(s, h, Keep, ResetState(s, t, h)) && ReleasedTo(s, h, Destroy, ReleasedState(s, t, h))
    ensures ResetState(s, t, h) == ReleasedState(s, t, h).(handles := ReleasedState(s, t, h).handles[h := ResetHandle(s.handles[h], s.blocks[s.handles[h].ref.value])])
  {
    if s.handles[h].kind.Shared? {
      ReleaseSharedEffect(s, t, h, Keep);
      ReleaseSharedEffect(s, t, h, Destroy);
    } else {
      ReleaseWeakEffect(s, t, h, Keep);
      ReleaseWeakEffect(s, t, h, Destroy);
    }
  }

  lemma {:induction false} AloneKeeps(s: State, t: Tid, n: nat, p: State -> bool)
    requires p(s) && forall z :: p(z) && CanContinue(z, t) ==> p(Step(z, t))
    ensures p(RunAlone(s, t, n))
    decreases n
  {
    if n != 0 && CanContinue(s, t) {
      AloneKeeps(Step(s, t), t, n - 1, p);
    }
  }

  lemma AloneKeepsInv(s: State, t: Tid, n: nat)
    requires Inv(s)
    ensures Inv(RunAlone(s, t, n))
  {
    forall z | Inv(z) && CanContinue(z, t) ensures Inv(Step(z, t)) {
      KeepStep(z, t);
    }
    AloneKeeps(s, t, n, (z: State) => Inv(z));
  }

  /** An empty handle in unused storage changes nothing. */
  lemma AddEmpty(s: State, h: Hid, kind: Kind)
    requires Inv(s) && Fresh(s, h)
    ensures Inv(s.(handles := s.handles[h := Handle(kind, None, None)]))
  {
    var s' := s.(handles := s.handles[h := Handle(kind, None, None)]);
    forall c ensures Strong(s', c) == Strong(s, c) && WeakUnits(s', c) == WeakUnits(s, c) {
      Put(s.handles, h, Handle(kind, None, None), HStrong(c));
      Put(s.handles, h, Handle(kind, None, None), HWeak(c));
    }
    AddEmptyShapes(s, s', h);
    AddEmptyLedgers(s, s');
  }

  lemma AddEmptyLedgers(s: State, s': State)
    requires Ledgers(s) && s'.blocks == s.blocks && s'.threads == s.threads
    requires forall c :: Strong(s', c) == Strong(s, c)
    requires forall c :: WeakUnits(s', c) == WeakUnits(s, c)
    ensures Ledgers(s')
  {
    forall c | c in s'.blocks ensures Ledger(s', c, s'.blocks[c]) {
      LedgerOf(s, c);
    }
  }

  lemma AddEmptyShapes(s: State, s': State, h: Hid)
    requires Shapes(s) && Fresh(s, h) && s'.blocks == s.blocks && s'.threads == s.threads
    requires s'.handles.Keys == s.handles.Keys + {h} && s'.handles[h].dest.None? && s'.handles[h].ref.None?
    requires forall g :: g in s.handles ==> s'.handles[g] == s.handles[g]
    requires forall c :: Strong(s', c) == Strong(s, c)
    ensures Shapes(s')
  {
    assert Extends(s, s');
    forall t | t in s'.threads ensures PcOk(s', s'.threads[t]) {
      PcFrame(s, s', s.threads[t]);
    }
    HandlesFrame(s, s');
  }

  /** The handle is the last one to return the unit that its destructor looks for: the strong
      unit for a SharedPtr, the weak unit for a WeakPtr. */
  predicate LastOfItsKind(s: State, h: Hid)
    requires Owning(s, h)
  {
    var k := s.blocks[s.handles[h].ref.value];
    if s.handles[h].kind.Shared? then k.strong == 1 else k.weak == 1
  }

  lemma ReachableOwns(s: State, t: Tid, h: Hid)
    requires Reachable(s) && Enabled(s, Begin(t, Reset(h))) && s.handles[h].ref.Some?
    ensures Inv(s) && Owning(s, h)
    ensures var k := s.blocks[s.handles[h].ref.value]; k.weak >= 1 && (s.handles[h].kind.Shared? ==> k.strong >= 1 && (k.strong > 1 ==> k.weak > 1))
  {
    ReachableInv(s);
    assert HandleOk(s, s.handles[h]);
    OwnedUnits(s, t, h, s.handles[h].ref.value);
  }

  lemma OwnedUnits(s: State, t: Tid, h: Hid, b: Bid)
    requires Inv(s) && Enabled(s, Begin(t, Reset(h))) && Owning(s, h) && s.handles[h].ref == Some(b)
    ensures s.blocks[b].weak >= 1
    ensures s.handles[h].kind.Shared? ==> 1 <= s.blocks[b].strong && (s.blocks[b].strong > 1 ==> s.blocks[b].weak > 1)
  {
    LedgerOf(s, b);
    Member(s.handles, h, HWeak(b));
    if s.handles[h].kind.Shared? {
      Member(s.handles, h, HStrong(b));
      if s.blocks[b].strong > 1 {
        SecondOwner(s, h, b);
      }
    }
  }

  /** A second strong owner, a handle or a thread, comes with a second weak unit, because nobody
      is reading h. */
  lemma SecondOwner(s: State, h: Hid, b: Bid)
    requires Shapes(s) && Ledgers(s) && b in s.blocks && h in s.handles && Unpinned(s, h)
    requires s.handles[h] == Handle(Shared, Some(b), Some(b)) && s.blocks[b].strong > 1
    ensures s.blocks[b].weak > 1
  {
    LedgerOf(s, b);
    Member(s.handles, h, HStrong(b));
    if Count(s.threads, TProbe(b)) > 0 {
      ProbesAreDead(s, b);
    }
    Take(s.handles, h, HStrong(b));
    if Count(s.handles - {h}, HStrong(b)) > 0 {
      var g := Witness(s.handles - {h}, HStrong(b));
      TwoWeak(s, h, g, b);
    } else {
      var u := Witness(s.threads, TStrong(b));
      OwningThread(s, h, u, b);
    }
  }

  lemma OwningThread(s: State, h: Hid, u: Tid, b: Bid)
    requires Shapes(s) && Ledgers(s) && b in s.blocks && h in s.handles && Unpinned(s, h)
    requires HWeak(b)(s.handles[h]) && u in s.threads && TStrong(b)(s.threads[u])
    ensures s.blocks[b].weak > 1
  {
    var pc := s.threads[u];
    assert PcOk(s, pc) && Pin(pc) != Some(h);
    if pc.DropStrong? {
      LedgerOf(s, b);
      Member(s.handles, h, HWeak(b));
      Member(s.threads, u, TWeak(b));
    } else {
      var g := Pin(pc).value;
      assert HandleOk(s, s.handles[g]);
      TwoWeak(s, h, g, b);
    }
  }

  lemma ResetFirst(s: State, t: Tid, h: Hid)
    requires Enabled(s, Begin(t, Reset(h))) && Owning(s, h)
    ensures Enabled(ResetState(s, t, h), Begin(t, Reset(h)))
    ensures ResetState(s, t, h).handles[h] == ResetHandle(s.handles[h], s.blocks[s.handles[h].ref.value])
  {
    ResetVersusRelease(s, t, h);
  }

  lemma EmptyHandleReleases(s: State, t: Tid, h: Hid)
    requires t in s.threads && s.threads[t].Idle? && h in s.handles
    requires if s.handles[h].kind.Shared? then s.handles[h].dest.None? else s.handles[h].ref.None?
    ensures RunAlone(StartReset(s, t, h, Destroy), t, 4) == s.(handles := s.handles - {h})
  {
    assert s.threads[t := Idle] == s.threads;
  }

  /** For every reachable state: reset() and then the destructor is the destructor alone exactly
      for the last handle of its kind. */
  lemma ResetThenDestroyIff(s: State, t: Tid, h: Hid)
    requires Reachable(s) && Enabled(s, Begin(t, Reset(h))) && s.handles[h].ref.Some?
    ensures Owning(s, h) && Enabled(ResetState(s, t, h), Begin(t, Release(h)))
    ensures ReleasedState(ResetState(s, t, h), t, h) == ReleasedState(s, t, h) <==> LastOfItsKind(s, h)
  {
    ReachableOwns(s, t, h);
    ResetFirst(s, t, h);
    ResetVersusRelease(s, t, h);
    if LastOfItsKind(s, h) {
      LastIsReturnedOnce(s, t, h);
    } else {
      NotLastIsReturnedTwice(s, t, h);
    }
  }

  lemma LastIsReturnedOnce(s: State, t: Tid, h: Hid)
    requires Enabled(s, Begin(t, Reset(h))) && Owning(s, h) && LastOfItsKind(s, h)
    ensures Enabled(ResetState(s, t, h), Begin(t, Release(h)))
    ensures ReleasedState(ResetState(s, t, h), t, h) == ReleasedState(s, t, h)
  {
    ResetFirst(s, t, h);
    ResetVersusRelease(s, t, h);
    var s1 := ResetState(s, t, h);
    EmptyHandleReleases(s1, t, h);
    assert s1.handles - {h} == ReleasedState(s, t, h).handles;
  }

  /** Otherwise the stale handle returns its units a second time. */
  lemma NotLastIsReturnedTwice(s: State, t: Tid, h: Hid)
    requires Enabled(s, Begin(t, Reset(h))) && Owning(s, h) && !LastOfItsKind(s, h)
    requires s.handles[h].kind.Shared? ==> s.blocks[s.handles[h].ref.value].weak > 1
    ensures Enabled(ResetState(s, t, h), Begin(t, Release(h)))
    ensures var b := s.handles[h].ref.value;
            var s2 := ReleasedState(ResetState(s, t, h), t, h);
            && b in s2.blocks && s2.blocks[b].weak == s.blocks[b].weak - 2
            && (s.handles[h].kind.Shared? ==> s2.blocks[b].strong == s.blocks[b].strong - 2)
            && s2.handles == s.handles - {h} && s2.threads == s.threads
            && s2 != ReleasedState(s, t, h)
  {
    ResetFirst(s, t, h);
    ResetVersusRelease(s, t, h);
    ResetVersusRelease(ResetState(s, t, h), t, h);
  }

  /** And reset() keeps every ledger exactly for the last handle of its kind. */
  lemma ResetKeepsLedgersIff(s: State, t: Tid, h: Hid)
    requires Reachable(s) && Enabled(s, Begin(t, Reset(h))) && s.handles[h].ref.Some?
    ensures Owning(s, h)
    ensures Ledgers(ResetState(s, t, h)) <==> LastOfItsKind(s, h)
  {
    ReachableOwns(s, t, h);
    ResetVersusRelease(s, t, h);
    if LastOfItsKind(s, h) {
      LastResetBalances(s, t, h);
    } else if Ledgers(ResetState(s, t, h)) {
      StaleUnit(s, ResetState(s, t, h), h);
    }
  }

  lemma LastResetBalances(s: State, t: Tid, h: Hid)
    requires Inv(s) && Enabled(s, Begin(t, Reset(h))) && Owning(s, h) && LastOfItsKind(s, h)
    ensures Ledgers(ResetState(s, t, h))
  {
    KeepStart(s, t, Release(h));
    AloneKeepsInv(Start(s, t, Release(h)), t, 4);
    ResetVersusRelease(s, t, h);
    ReleasedIsFresh(s, t, h);
    AddUnowning(ReleasedState(s, t, h), ResetState(s, t, h), h);
  }

  /** A handle that owns nothing balances with the rest. */
  lemma AddUnowning(s: State, s': State, h: Hid)
    requires Ledgers(s) && h !in s.handles && h in s'.handles
    requires s' == s.(handles := s.handles[h := s'.handles[h]])
    requires if s'.handles[h].kind.Shared? then s'.handles[h].dest.None? else s'.handles[h].ref.None?
    ensures Ledgers(s')
  {
    var v := s'.handles[h];
    forall c ensures Strong(s', c) == Strong(s, c) && WeakUnits(s', c) == WeakUnits(s, c) {
      Put(s.handles, h, v, HStrong(c));
      Put(s.handles, h, v, HWeak(c));
    }
    AddEmptyLedgers(s, s');
  }

  /** After reset() the handle may go on being used in any way (the whole invariant holds)
      exactly when it was the last owner of both counts, or of the weak count for a WeakPtr. */
  lemma ResetLeavesAUsableHandleIff(s: State, t: Tid, h: Hid)
    requires Reachable(s) && Enabled(s, Begin(t, Reset(h))) && s.handles[h].ref.Some?
    ensures Owning(s, h)
    ensures Inv(ResetState(s, t, h)) <==> LastOfItsKind(s, h) && s.blocks[s.handles[h].ref.value].weak == 1
  {
    ReachableOwns(s, t, h);
    ResetVersusRelease(s, t, h);
    var v := s.handles[h];
    var k := s.blocks[v.ref.value];
    if LastOfItsKind(s, h) && k.weak == 1 {
      LastResetIsClean(s, t, h);
    } else if Inv(ResetState(s, t, h)) {
      StaleName(s, ResetState(s, t, h), h);
    }
  }

  /** The last handle of its kind: reset() is release, and an empty handle in its place. */
  lemma LastResetIsClean(s: State, t: Tid, h: Hid)
    requires Inv(s) && Enabled(s, Begin(t, Reset(h))) && Owning(s, h)
    requires LastOfItsKind(s, h) && s.blocks[s.handles[h].ref.value].weak == 1
    ensures Inv(ResetState(s, t, h))
  {
    KeepStart(s, t, Release(h));
    AloneKeepsInv(Start(s, t, Release(h)), t, 4);
    ResetVersusRelease(s, t, h);
    ReleasedIsFresh(s, t, h);
    AddEmpty(ReleasedState(s, t, h), h, s.handles[h].kind);
  }

  lemma ReleasedIsFresh(s: State, t: Tid, h: Hid)
    requires Separate(s) && Enabled(s, Begin(t, Reset(h))) && Owning(s, h)
    ensures Fresh(ReleasedState(s, t, h), h)
  {
    ResetVersusRelease(s, t, h);
  }

  lemma StaleUnit(s: State, s': State, h: Hid)
    requires Ledgers(s) && Ledgers(s') && Owning(s, h) && ReleasedTo(s, h, Keep, s')
    ensures LastOfItsKind(s, h)
  {
    var v := s.handles[h];
    var b := v.ref.value;
    var k := s.blocks[b];
    LedgerOf(s, b);
    LedgerOf(s', b);
    Put(s.handles, h, ResetHandle(v, k), HStrong(b));
    Put(s.handles, h, ResetHandle(v, k), HWeak(b));
  }

  lemma StaleName(s: State, s': State, h: Hid)
    requires Inv(s) && Inv(s') && Owning(s, h) && ReleasedTo(s, h, Keep, s')
    ensures LastOfItsKind(s, h) && s.blocks[s.handles[h].ref.value].weak == 1
  {
    assert HandleOk(s', s'.handles[h]);
    StaleUnit(s, s', h);
  }

  // ------------------------------------------------------------- what it breaks

  /** The destructors of several handles, one after the other, by one thread. */
  function ReleaseAll(s: State, t: Tid, hs: seq<Hid>): State
    requires t in s.threads && s.threads[t].Idle? && Releasable(s, hs)
    decreases |hs|
  {
    if hs == [] then s else
    ReleaseOne(s, t, hs);
    ReleaseAll(ReleasedState(s, t, hs[0]), t, hs[1..])
  }

  /** Distinct handles that own units and that nobody reads. */
  predicate Releasable(s: State, hs: seq<Hid>) {
    && (forall i :: 0 <= i < |hs| ==> Owning(s, hs[i]) && Unpinned(s, hs[i]))
    && (forall i, j :: 0 <= i < j < |hs| ==> hs[i] != hs[j])
  }

  lemma ReleaseOne(s: State, t: Tid, hs: seq<Hid>)
    requires t in s.threads && s.threads[t].Idle? && Releasable(s, hs) && hs != []
    ensures Enabled(s, Begin(t, Release(hs[0])))
    ensures var s1 := ReleasedState(s, t, hs[0]);
            && ReleasedTo(s, hs[0], Destroy, s1) && s1.threads == s.threads && Releasable(s1, hs[1..])
  {
    assert Enabled(s, Begin(t, Reset(hs[0])));
    ResetVersusRelease(s, t, hs[0]);
  }

  /** All handles on the list refer to b. */
  predicate AllOf(s: State, hs: seq<Hid>, b: Bid) {
    forall i :: 0 <= i < |hs| ==> hs[i] in s.handles && s.handles[hs[i]].ref == Some(b)
  }

  predicate AllShared(s: State, hs: seq<Hid>) {
    forall i :: 0 <= i < |hs| ==> hs[i] in s.handles && s.handles[hs[i]].kind.Shared?
  }

  /** As many destructors as the weak count says free the block. */
  lemma {:induction false} WeakRunsOut(s: State, t: Tid, hs: seq<Hid>, b: Bid)
    requires t in s.threads && s.threads[t].Idle? && Releasable(s, hs) && AllOf(s, hs, b)
    requires hs != [] && b in s.blocks && s.blocks[b].weak == |hs|
    ensures var s' := ReleaseAll(s, t, hs);
            && b in s'.blocks && s'.blocks[b].weak == 0 && s'.blocks[b].frees == s.blocks[b].frees + 1
            && s'.threads == s.threads && forall g :: g in s.handles && g !in hs ==> g in s'.handles && s'.handles[g] == s.handles[g]
    decreases |hs|
  {
    ReleaseOne(s, t, hs);
    var s1 := ReleasedState(s, t, hs[0]);
    if |hs| > 1 {
      WeakRunsOut(s1, t, hs[1..], b);
    } else {
      assert ReleaseAll(s1, t, hs[1..]) == s1;
    }
  }

  /** As many destructors of SharedPtrs as the strong count says delete the object. */
  lemma {:induction false} StrongRunsOut(s: State, t: Tid, hs: seq<Hid>, b: Bid)
    requires t in s.threads && s.threads[t].Idle? && Releasable(s, hs) && AllOf(s, hs, b) && AllShared(s, hs)
    requires hs != [] && b in s.blocks && s.blocks[b].strong == |hs|
    ensures var s' := ReleaseAll(s, t, hs);
            && b in s'.blocks && s'.blocks[b].strong == 0 && s'.blocks[b].deletes == s.blocks[b].deletes + 1
            && s'.threads == s.threads && forall g :: g in s.handles && g !in hs ==> g in s'.handles && s'.handles[g] == s.handles[g]
    decreases |hs|
  {
    ReleaseOne(s, t, hs);
    var s1 := ReleasedState(s, t, hs[0]);
    if |hs| > 1 {
      StrongRunsOut(s1, t, hs[1..], b);
    } else {
      assert ReleaseAll(s1, t, hs[1..]) == s1;
    }
  }

  /** A stale SharedPtr: with n > 1 owners, reset() of one and then the destructors of n - 1 of
      them, that one included, delete the object under the last. */
  lemma ResetThenDestroyDeletesTooEarly(s: State, t: Tid, hs: seq<Hid>, g: Hid, b: Bid)
    requires Reachable(s) && hs != [] && Enabled(s, Begin(t, Reset(hs[0])))
    requires Releasable(s, hs) && AllOf(s, hs, b) && AllShared(s, hs)
    requires g in s.handles && g !in hs && s.handles[g] == Handle(Shared, Some(b), Some(b))
    requires b in s.blocks && s.blocks[b].strong == |hs| + 1
    ensures Releasable(ResetState(s, t, hs[0]), hs)
    ensures var s' := ReleaseAll(ResetState(s, t, hs[0]), t, hs);
            g in s'.handles && s'.handles[g].dest == Some(b) && b in s'.blocks && s'.blocks[b].deletes == 1
  {
    LiveHandleProtects(s, g, b);
    ReachableInv(s);
    TwoWeak(s, hs[0], g, b);
    StaleSharedStays(s, t, hs[0], b);
    StrongRunsOut(ResetState(s, t, hs[0]), t, hs, b);
  }

  /** With another owner about, reset() of a SharedPtr changes the counts and nothing else. */
  lemma StaleSharedStays(s: State, t: Tid, h: Hid, b: Bid)
    requires Enabled(s, Begin(t, Reset(h))) && s.handles[h] == Handle(Shared, Some(b), Some(b))
    requires b in s.blocks && s.blocks[b].strong > 1 && s.blocks[b].weak > 1
    ensures var k := s.blocks[b];
            ResetState(s, t, h) == s.(blocks := s.blocks[b := k.(strong := k.strong - 1, weak := k.weak - 1)])
  {
    ResetVersusRelease(s, t, h);
    assert s.handles[h := s.handles[h]] == s.handles;
  }

  /** A stale WeakPtr: with n > 1 weak units, reset() of one handle and then the destructors of
      n - 1, that one included, free the block under the last, a SharedPtr or a WeakPtr. */
  lemma ResetThenDestroyFreesTooEarly(s: State, t: Tid, hs: seq<Hid>, g: Hid, b: Bid)
    requires Reachable(s) && hs != [] && Enabled(s, Begin(t, Reset(hs[0]))) && s.handles[hs[0]].kind.Weak?
    requires Releasable(s, hs) && AllOf(s, hs, b)
    requires g in s.handles && g !in hs && s.handles[g].ref == Some(b)
    requires b in s.blocks && s.blocks[b].weak == |hs| + 1
    ensures Releasable(ResetState(s, t, hs[0]), hs)
    ensures var s' := ReleaseAll(ResetState(s, t, hs[0]), t, hs);
            g in s'.handles && s'.handles[g].ref == Some(b) && b in s'.blocks && s'.blocks[b].frees == 1
  {
    ReachableInv(s);
    NotFreedYet(s, hs[0], b);
    ResetVersusRelease(s, t, hs[0]);
    var s1 := ResetState(s, t, hs[0]);
    WeakRunsOut(s1, t, hs, b);
  }

  lemma NotFreedYet(s: State, h: Hid, b: Bid)
    requires Ledgers(s) && Owning(s, h) && s.handles[h].ref == Some(b)
    ensures s.blocks[b].frees == 0
  {
    LedgerOf(s, b);
    Member(s.handles, h, HWeak(b));
  }

  /** A SharedPtr that was the last strong owner but not the last weak one: its destructor does
      nothing more, but it still names the block.  Once the weak owners are gone, a WeakPtr
      made from it goes on to touch freed memory. */
  lemma ResetThenCopyTouchesFreed(s: State, t: Tid, h: Hid, hs: seq<Hid>, w: Hid, b: Bid)
    requires Reachable(s) && Enabled(s, Begin(t, Reset(h))) && s.handles[h] == Handle(Shared, Some(b), Some(b))
    requires hs != [] && h !in hs && Releasable(s, hs) && AllOf(s, hs, b) && Fresh(s, w)
    requires b in s.blocks && s.blocks[b].strong == 1 && s.blocks[b].weak == |hs| + 1
    requires forall i :: 0 <= i < |hs| ==> s.handles[hs[i]].kind.Weak?
    ensures Releasable(ResetState(s, t, h), hs)
    ensures CopyTouchesFreed(ReleaseAll(ResetState(s, t, h), t, hs), t, h, w, b)
  {
    ReachableInv(s);
    NotFreedYet(s, h, b);
    ResetVersusRelease(s, t, h);
    var s1 := ResetState(s, t, h);
    assert s1.handles[h] == Handle(Shared, None, Some(b));
    StaleNameOutlives(s1, t, h, hs, w, b);
  }

  lemma StaleNameOutlives(s: State, t: Tid, h: Hid, hs: seq<Hid>, w: Hid, b: Bid)
    requires t in s.threads && s.threads[t].Idle? && Releasable(s, hs) && AllOf(s, hs, b) && hs != []
    requires h in s.handles && s.handles[h] == Handle(Shared, None, Some(b)) && h !in hs && Fresh(s, w)
    requires b in s.blocks && s.blocks[b].weak == |hs| && s.blocks[b].frees == 0
    ensures CopyTouchesFreed(ReleaseAll(s, t, hs), t, h, w, b)
  {
    WeakRunsOut(s, t, hs, b);
    ReleaseKeepsFresh(s, t, hs, w);
    CopyReadsBlock(ReleaseAll(s, t, hs), t, h, w, b);
  }

  /** A WeakPtr w made from h is about to raise a count in the freed block b. */
  predicate CopyTouchesFreed(s: State, t: Tid, h: Hid, w: Hid, b: Bid) {
    && Enabled(s, Begin(t, Construct(w, Weak, h)))
    && var s1 := Start(s, t, Construct(w, Weak, h));
    && CanContinue(s1, t)
    && Touches(Step(s1, t).threads[t]) == Some(b) && b in s1.blocks && s1.blocks[b].frees == 1
  }

  lemma CopyReadsBlock(s: State, t: Tid, h: Hid, w: Hid, b: Bid)
    requires t in s.threads && s.threads[t].Idle? && Fresh(s, w) && b in s.blocks && s.blocks[b].frees == 1
    requires h in s.handles && s.handles[h] == Handle(Shared, None, Some(b))
    ensures CopyTouchesFreed(s, t, h, w, b)
  {
  }

  lemma {:induction false} ReleaseKeepsFresh(s: State, t: Tid, hs: seq<Hid>, w: Hid)
    requires t in s.threads && s.threads[t].Idle? && Releasable(s, hs) && Fresh(s, w)
    ensures Fresh(ReleaseAll(s, t, hs), w)
    decreases |hs|
  {
    if hs != [] {
      ReleaseOne(s, t, hs);
      ReleaseKeepsFresh(ReleasedState(s, t, hs[0]), t, hs[1..], w);
    }
  }

  lemma TwoWeak(s: State, h: Hid, g: Hid, b: Bid)
    requires Ledgers(s) && b in s.blocks && h in s.handles && g in s.handles && h != g
    requires HWeak(b)(s.handles[h]) && HWeak(b)(s.handles[g])
    ensures s.blocks[b].weak >= 2
  {
    LedgerOf(s, b);
    TwoMembers(s.handles, h, g, HWeak(b));
  }

  // --------------------------------------------------------- it does happen

  lemma {:induction false} RunMore(s: State, run: seq<Action>, a: Action)
    requires Runnable(s, run) && Enabled(Run(s, run), a) && Disciplined(a)
    ensures Runnable(s, run + [a]) && Run(s, run + [a]) == Apply(Run(s, run), a)
    decreases |run|
  {
    if run == [] {
      assert [a][1..] == [];
    } else {
      assert (run + [a])[1..] == run[1..] + [a];
      RunMore(Apply(s, run[0]), run[1..], a);
    }
  }

  lemma ReachNext(s: State, a: Action)
    requires Reachable(s) && Enabled(s, a) && Disciplined(a)
    ensures Reachable(Apply(s, a))
  {
    var s0, run :| Initial(s0) && Runnable(s0, run) && Run(s0, run) == s;
    RunMore(s0, run, a);
  }

  const NOTHING := State(map[], map[], map[0 := Idle])
  const OWNER := Handle(Shared, Some(0), Some(0))
  const OBSERVER := Handle(Weak, Some(0), Some(0))

  /** One SharedPtr; two of them; one and a WeakPtr. */
  const ONE := State(map[0 := RefData(1, 1, None, 0, 0)], map[0 := OWNER], map[0 := Idle])
  const TWO := State(map[0 := RefData(2, 2, None, 0, 0)], map[0 := OWNER, 1 := OWNER], map[0 := Idle])
  const MIXED := State(map[0 := RefData(1, 2, None, 0, 0)], map[0 := OWNER, 1 := OBSERVER], map[0 := Idle])

  lemma ReachOne()
    ensures Reachable(ONE)
  {
    assert Reachable(NOTHING) by {
      assert Initial(NOTHING) && Runnable(NOTHING, []) && Run(NOTHING, []) == NOTHING;
    }
    var a := Begin(0, New(0, 0));
    ReachNext(NOTHING, a);
    assert Apply(NOTHING, a) == ONE;
  }

  const COPYING := State(map[0 := RefData(1, 1, None, 0, 0)], map[0 := OWNER], map[0 := IncStrong(1, OWNER, 0)])
  const COUNTED := State(map[0 := RefData(2, 1, None, 0, 0)], map[0 := OWNER], map[0 := IncWeak(1, OWNER, 0)])
  const WATCHING := State(map[0 := RefData(1, 1, None, 0, 0)], map[0 := OWNER], map[0 := IncWeak(1, OBSERVER, 0)])

  /** The start of a copy of handle 0, up to what it has read. */
  lemma ReachRead(kind: Kind)
    ensures Reachable(ONE.(threads := map[0 := Read(1, kind, 0)]))
  {
    ReachOne();
    var a := Begin(0, Construct(1, kind, 0));
    assert Apply(ONE, a) == ONE.(threads := map[0 := Read(1, kind, 0)]);
    ReachNext(ONE, a);
  }

  lemma ReachCopying()
    ensures Reachable(COPYING)
  {
    var s := ONE.(threads := map[0 := Read(1, Shared, 0)]);
    ReachRead(Shared);
    assert Apply(s, Continue(0)) == COPYING;
    ReachNext(s, Continue(0));
  }

  lemma ReachCounted()
    ensures Reachable(COUNTED)
  {
    ReachCopying();
    assert Apply(COPYING, Continue(0)) == COUNTED;
    ReachNext(COPYING, Continue(0));
  }

  lemma ReachTwo()
    ensures Reachable(TWO)
  {
    ReachCounted();
    assert Apply(COUNTED, Continue(0)) == TWO;
    ReachNext(COUNTED, Continue(0));
  }

  lemma ReachWatching()
    ensures Reachable(WATCHING)
  {
    var s := ONE.(threads := map[0 := Read(1, Weak, 0)]);
    ReachRead(Weak);
    assert Apply(s, Continue(0)) == WATCHING;
    ReachNext(s, Continue(0));
  }

  lemma ReachMixed()
    ensures Reachable(MIXED)
  {
    ReachWatching();
    assert Apply(WATCHING, Continue(0)) == MIXED;
    ReachNext(WATCHING, Continue(0));
  }

  /** Two SharedPtrs: reset() and destruction of one delete the object of the other. */
  lemma TwoOwnersExample()
    ensures Reachable(TWO) && Enabled(TWO, Begin(0, Reset(0))) && Releasable(ResetState(TWO, 0, 0), [0])
    ensures var s := ReleaseAll(ResetState(TWO, 0, 0), 0, [0]);
            1 in s.handles && s.handles[1].dest == Some(0) && 0 in s.blocks && s.blocks[0].deletes == 1
  {
    ReachTwo();
    ResetThenDestroyDeletesTooEarly(TWO, 0, [0], 1, 0);
  }

  /** A SharedPtr and a WeakPtr: reset() and destruction of the WeakPtr free the block of the
      SharedPtr. */
  lemma WeakExample()
    ensures Reachable(MIXED) && Enabled(MIXED, Begin(0, Reset(1))) && Releasable(ResetState(MIXED, 0, 1), [1])
    ensures var s := ReleaseAll(ResetState(MIXED, 0, 1), 0, [1]);
            0 in s.handles && s.handles[0].ref == Some(0) && 0 in s.blocks && s.blocks[0].frees == 1
  {
    ReachMixed();
    ResetThenDestroyFreesTooEarly(MIXED, 0, [1], 0, 0);
  }

  /** reset() of the SharedPtr and destruction of the WeakPtr leave a SharedPtr from which a new
      WeakPtr touches freed memory. */
  lemma CopyExample()
    ensures Reachable(MIXED) && Enabled(MIXED, Begin(0, Reset(0))) && Releasable(ResetState(MIXED, 0, 0), [1])
    ensures CopyTouchesFreed(ReleaseAll(ResetState(MIXED, 0, 0), 0, [1]), 0, 0, 2, 0)
  {
    ReachMixed();
    ResetThenCopyTouchesFreed(MIXED, 0, 0, [1], 2, 0);
  }
}
