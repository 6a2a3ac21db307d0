/** Every atomic step, and every operation's start, keeps the invariant of SmartPtr. */
module SmartPtrSteps {
  import opened Counting
  import opened Options
  import opened SmartPtr

  /** Blocks stay, and a dead block stays dead. */
  ghost predicate Extends(s: State, s': State) {
    forall b :: b in s.blocks ==> b in s'.blocks && (Dead(s, b) ==> Dead(s', b))
  }

  /** A settled handle keeps what its readers rely on. */
  predicate SameSource(s: State, s': State, h: Hid) {
    h in s.handles ==>
      && h in s'.handles
      && s'.handles[h].kind == s.handles[h].kind
      && s'.handles[h].ref == s.handles[h].ref
      && (s.handles[h].kind.Shared? ==> s'.handles[h].dest == s.handles[h].dest)
  }


  lemma PcFrame(s: State, s': State, pc: Pc)
    requires PcOk(s, pc) && Extends(s, s')
    requires Pin(pc).Some? ==> SameSource(s, s', Pin(pc).value)
    ensures PcOk(s', pc)
  {
  }

  /** s' is s after thread t moved; the handles other threads read are untouched. */
  predicate Moved(s: State, s': State, t: Tid) {
    && t in s.threads && t in s'.threads && s'.threads == s.threads[t := s'.threads[t]]
    && (forall u :: u in s.threads && u != t && Pin(s.threads[u]).Some? ==> SameSource(s, s', Pin(s.threads[u]).value))
  }

  lemma ThreadsFrame(s: State, s': State, t: Tid)
    requires forall u :: u in s.threads ==> PcOk(s, s.threads[u])
    requires Moved(s, s', t) && Extends(s, s') && PcOk(s', s'.threads[t])
    ensures forall u :: u in s'.threads ==> PcOk(s', s'.threads[u])
  {
    forall u | u in s'.threads ensures PcOk(s', s'.threads[u]) {
      if u != t {
        PcFrame(s, s', s.threads[u]);
      }
    }
  }

  lemma HandlesFrame(s: State, s': State)
    requires forall h :: h in s.handles ==> HandleOk(s, s.handles[h])
    requires Extends(s, s')
    requires forall h :: h in s'.handles ==> (h in s.handles && s'.handles[h] == s.handles[h]) || HandleOk(s', s'.handles[h])
    ensures forall h :: h in s'.handles ==> HandleOk(s', s'.handles[h])
  {
    forall h | h in s'.handles ensures HandleOk(s', s'.handles[h]) {
      if h in s.handles && s'.handles[h] == s.handles[h] {
        assert HandleOk(s, s.handles[h]);
      }
    }
  }

  predicate SameSpins(bs: map<Bid, RefData>, bs': map<Bid, RefData>) {
    bs'.Keys == bs.Keys && forall b :: b in bs ==> bs'[b].spin == bs[b].spin
  }

  predicate Critical(pc: Pc) {
    pc.LockInc? || pc.LockUndo? || pc.LockForget? || pc.LockLeaveDead? || pc.LockLeave?
  }

  // ------------------------------------------------- every step keeps the ledgers

  lemma NoProbe(s: State, b: Bid, t: Tid)
    requires Shapes(s) && t in s.threads && TStrong(b)(s.threads[t])
    ensures Count(s.threads, TStrong(b)) > 0 && Count(s.threads, TProbe(b)) == 0
  {
    Member(s.threads, t, TStrong(b));
    if Count(s.threads, TProbe(b)) > 0 {
      var u := Witness(s.threads, TProbe(b));
      assert false;
    }
  }

  /** The spin lock lets at most one locker of a block probe. */
  lemma NoOtherProbe(s: State, b: Bid, t: Tid)
    requires Spins(s) && t in s.threads && b in s.blocks && InCritical(s.threads[t], b) && !s.threads[t].LockUndo?
    ensures Count(s.threads, TProbe(b)) == 0
  {
    if Count(s.threads, TProbe(b)) > 0 {
      var u := Witness(s.threads, TProbe(b));
      assert InCritical(s.threads[u], b);
    }
  }

  ghost predicate LedgerNext(s: State, s': State, c: Bid) {
    c in s'.blocks && Ledger(s', c, s'.blocks[c]) && (Dead(s, c) ==> Dead(s', c))
  }

  /** What the ledger lemmas below know about the moving thread and the block they look at. */
  ghost predicate Ready(s: State, t: Tid, c: Bid) {
    && CanContinue(s, t) && PcOk(s, s.threads[t]) && s.threads[t].h !in s.handles
    && c in s.blocks && Ledger(s, c, s.blocks[c])
  }

  lemma LedgerDropStrong(s: State, t: Tid, c: Bid)
    requires Ready(s, t, c) && s.threads[t].DropStrong? && Shapes(s)
    ensures LedgerNext(s, Step(s, t), c)
  {
    Move(s.threads, t, Step(s, t).threads[t], c);
    if s.threads[t].v.ref == Some(c) {
      NoProbe(s, c, t);
    }
  }

  lemma LedgerDelete(s: State, t: Tid, c: Bid)
    requires Ready(s, t, c) && s.threads[t].DeleteObject?
    ensures LedgerNext(s, Step(s, t), c)
  {
    Move(s.threads, t, Step(s, t).threads[t], c);
  }

  lemma DropOtherWeak(s: State, t: Tid, c: Bid)
    requires Ready(s, t, c) && s.threads[t].DropWeak? && s.threads[t].v.ref != Some(c)
    ensures LedgerNext(s, Step(s, t), c)
  {
    var s' := Step(s, t);
    assert s'.handles == s.handles;
    LedgerQuiet(s, s', t, c);
  }

  lemma LedgerDropWeak(s: State, t: Tid, c: Bid)
    requires Ready(s, t, c) && s.threads[t].DropWeak?
    ensures LedgerNext(s, Step(s, t), c)
  {
    if s.threads[t].v.ref == Some(c) {
      var s' := Step(s, t);
      assert s'.handles == s.handles && s'.threads == s.threads[t := s'.threads[t]];
      Member(s.threads, t, TWeak(c));
      Move(s.threads, t, s'.threads[t], c);
    } else {
      DropOtherWeak(s, t, c);
    }
  }

  lemma LedgerFree(s: State, t: Tid, c: Bid)
    requires Ready(s, t, c) && s.threads[t].FreeRef?
    ensures LedgerNext(s, Step(s, t), c)
  {
    Move(s.threads, t, Step(s, t).threads[t], c);
  }

  predicate NoUnits(pc: Pc, c: Bid) {
    !TStrong(c)(pc) && !TProbe(c)(pc) && !TWeak(c)(pc) && !TDelete(c)(pc) && !TFree(c)(pc)
  }

  /** A thread without units goes on without units, and the handles own what they owned. */
  lemma LedgerQuiet(s: State, s': State, t: Tid, c: Bid)
    requires c in s.blocks && Ledger(s, c, s.blocks[c]) && t in s.threads && t in s'.threads
    requires c in s'.blocks && s'.blocks[c] == s.blocks[c] && s'.threads == s.threads[t := s'.threads[t]]
    requires NoUnits(s.threads[t], c) && NoUnits(s'.threads[t], c)
    requires Count(s'.handles, HStrong(c)) == Count(s.handles, HStrong(c))
    requires Count(s'.handles, HWeak(c)) == Count(s.handles, HWeak(c))
    ensures LedgerNext(s, s', c)
  {
    Move(s.threads, t, s'.threads[t], c);
  }

  lemma LedgerRead(s: State, t: Tid, c: Bid)
    requires Ready(s, t, c) && s.threads[t].Read? && HandleOk(s, s.handles[s.threads[t].src])
    ensures LedgerNext(s, Step(s, t), c)
  {
    var pc := s.threads[t];
    var s' := Step(s, t);
    if s'.threads[t].Idle? {
      Put(s.handles, pc.h, s'.handles[pc.h], HStrong(c));
      Put(s.handles, pc.h, s'.handles[pc.h], HWeak(c));
    }
    LedgerQuiet(s, s', t, c);
  }

  lemma LedgerIncStrong(s: State, t: Tid, c: Bid)
    requires Ready(s, t, c) && s.threads[t].IncStrong?
    ensures LedgerNext(s, Step(s, t), c)
  {
    var pc := s.threads[t];
    Move(s.threads, t, Step(s, t).threads[t], c);
    if pc.v.ref == Some(c) {
      Member(s.handles, pc.src, HStrong(c));
    }
  }

  lemma LedgerIncWeak(s: State, t: Tid, c: Bid)
    requires Ready(s, t, c) && s.threads[t].IncWeak? && HandleOk(s, s.handles[s.threads[t].src])
    ensures LedgerNext(s, Step(s, t), c)
  {
    var pc := s.threads[t];
    Move(s.threads, t, Idle, c);
    Put(s.handles, pc.h, pc.v, HStrong(c));
    Put(s.handles, pc.h, pc.v, HWeak(c));
    if pc.v.ref == Some(c) {
      Member(s.handles, pc.src, HWeak(c));
    }
  }

  lemma LedgerSpin(s: State, t: Tid, c: Bid)
    requires Ready(s, t, c) && (s.threads[t].LockSpin? || s.threads[t].LockLeave?)
    ensures LedgerNext(s, Step(s, t), c)
  {
    Move(s.threads, t, Step(s, t).threads[t], c);
  }

  lemma LedgerLockInc(s: State, t: Tid, c: Bid)
    requires Ready(s, t, c) && s.threads[t].LockInc? && Spins(s)
    ensures LedgerNext(s, Step(s, t), c)
    ensures c == s.threads[t].b ==> (Step(s, t).threads[t].LockUndo? <==> Dead(s, c))
  {
    Move(s.threads, t, Step(s, t).threads[t], c);
    if s.threads[t].b == c {
      NoOtherProbe(s, c, t);
    }
  }

  lemma LedgerUndo(s: State, t: Tid, c: Bid)
    requires Ready(s, t, c) && s.threads[t].LockUndo?
    ensures LedgerNext(s, Step(s, t), c)
  {
    Move(s.threads, t, Step(s, t).threads[t], c);
  }

  lemma LedgerForget(s: State, t: Tid, c: Bid)
    requires Ready(s, t, c) && s.threads[t].LockForget?
    ensures LedgerNext(s, Step(s, t), c)
  {
    var w := s.threads[t].w;
    Move(s.threads, t, Step(s, t).threads[t], c);
    Put(s.handles, w, Step(s, t).handles[w], HStrong(c));
    Put(s.handles, w, Step(s, t).handles[w], HWeak(c));
  }

  lemma LedgerLeaveDead(s: State, t: Tid, c: Bid)
    requires Ready(s, t, c) && s.threads[t].LockLeaveDead?
    ensures LedgerNext(s, Step(s, t), c)
  {
    Move(s.threads, t, Idle, c);
    Put(s.handles, s.threads[t].h, NULL_SHARED, HStrong(c));
    Put(s.handles, s.threads[t].h, NULL_SHARED, HWeak(c));
  }

  /** A lock() that found the object alive still knows its address. */
  lemma StillKnown(s: State, t: Tid)
    requires t in s.threads && PcOk(s, s.threads[t]) && s.threads[t].LockBuild?
    requires HandleOk(s, s.handles[s.threads[t].w])
    ensures s.handles[s.threads[t].w].dest == Some(s.threads[t].b)
  {
    Member(s.threads, t, TStrong(s.threads[t].b));
  }

  lemma LedgerBuild(s: State, t: Tid, c: Bid)
    requires Ready(s, t, c) && s.threads[t].LockBuild? && s.handles[s.threads[t].w].dest == Some(s.threads[t].b)
    ensures LedgerNext(s, Step(s, t), c)
  {
    Move(s.threads, t, Step(s, t).threads[t], c);
  }

  lemma LedgerStep(s: State, t: Tid, c: Bid)
    requires Shapes(s) && Spins(s) && Ready(s, t, c)
    ensures LedgerNext(s, Step(s, t), c)
  {
    match s.threads[t] {
      case DropStrong(_, _, _) => LedgerDropStrong(s, t, c);
      case DeleteObject(_, _, _) => LedgerDelete(s, t, c);
      case DropWeak(_, _, _) => LedgerDropWeak(s, t, c);
      case FreeRef(_, _, _) => LedgerFree(s, t, c);
      case Read(_, _, _) => LedgerRead(s, t, c);
      case IncStrong(_, _, _) => LedgerIncStrong(s, t, c);
      case IncWeak(_, _, _) => LedgerIncWeak(s, t, c);
      case LockSpin(_, _, _) => LedgerSpin(s, t, c);
      case LockInc(_, _, _) => LedgerLockInc(s, t, c);
      case LockUndo(_, _, _) => LedgerUndo(s, t, c);
      case LockForget(_, _, _) => LedgerForget(s, t, c);
      case LockLeaveDead(_, _, _) => LedgerLeaveDead(s, t, c);
      case LockLeave(_, _, _) => LedgerSpin(s, t, c);
      case LockBuild(_, _, _) => StillKnown(s, t); LedgerBuild(s, t, c);
    }
  }

  lemma StepBlocks(s: State, t: Tid)
    requires CanContinue(s, t)
    ensures Step(s, t).blocks.Keys == s.blocks.Keys
  {
  }

  lemma LedgersStep(s: State, t: Tid)
    requires Inv(s) && CanContinue(s, t)
    ensures Ledgers(Step(s, t)) && Extends(s, Step(s, t))
  {
    StepBlocks(s, t);
    forall c | c in s.blocks ensures LedgerNext(s, Step(s, t), c) {
      LedgerStep(s, t, c);
    }
  }

  // ------------------------------------------------- every step keeps the shapes

  lemma NextPcDrop(s: State, t: Tid)
    requires CanContinue(s, t) && PcOk(s, s.threads[t]) && Extends(s, Step(s, t))
    requires s.threads[t].DropStrong? || s.threads[t].DeleteObject? || s.threads[t].DropWeak? || s.threads[t].FreeRef?
    ensures PcOk(Step(s, t), Step(s, t).threads[t])
  {
  }

  lemma NextPcInc(s: State, t: Tid)
    requires CanContinue(s, t) && PcOk(s, s.threads[t]) && Extends(s, Step(s, t))
    requires s.threads[t].Read? || s.threads[t].IncStrong? || s.threads[t].IncWeak?
    requires s.threads[t].h !in s.handles && HandleOk(s, s.handles[s.threads[t].src])
    ensures PcOk(Step(s, t), Step(s, t).threads[t])
  {
  }

  lemma NextPcLock(s: State, t: Tid)
    requires CanContinue(s, t) && PcOk(s, s.threads[t]) && Extends(s, Step(s, t))
    requires s.threads[t].LockSpin? || s.threads[t].LockInc? || s.threads[t].LockUndo? || s.threads[t].LockForget?
          || s.threads[t].LockLeaveDead? || s.threads[t].LockLeave? || s.threads[t].LockBuild?
    requires s.threads[t].LockBuild? ==> s.handles[s.threads[t].w].dest == Some(s.threads[t].b)
    requires s.threads[t].LockInc? && Step(s, t).threads[t].LockUndo? ==> Dead(Step(s, t), s.threads[t].b)
    ensures PcOk(Step(s, t), Step(s, t).threads[t])
  {
  }

  lemma NextPc(s: State, t: Tid)
    requires CanContinue(s, t) && PcOk(s, s.threads[t]) && Extends(s, Step(s, t))
    requires s.threads[t].h !in s.handles
    requires s.threads[t].Read? || s.threads[t].IncStrong? || s.threads[t].IncWeak? ==>
               HandleOk(s, s.handles[s.threads[t].src])
    requires s.threads[t].LockBuild? ==> s.handles[s.threads[t].w].dest == Some(s.threads[t].b)
    requires s.threads[t].LockInc? && Step(s, t).threads[t].LockUndo? ==> Dead(Step(s, t), s.threads[t].b)
    ensures PcOk(Step(s, t), Step(s, t).threads[t])
  {
    match s.threads[t] {
      case DropStrong(_, _, _) => NextPcDrop(s, t);
      case DeleteObject(_, _, _) => NextPcDrop(s, t);
      case DropWeak(_, _, _) => NextPcDrop(s, t);
      case FreeRef(_, _, _) => NextPcDrop(s, t);
      case Read(_, _, _) => NextPcInc(s, t);
      case IncStrong(_, _, _) => NextPcInc(s, t);
      case IncWeak(_, _, _) => NextPcInc(s, t);
      case _ => NextPcLock(s, t);
    }
  }

  lemma NewHandleOk(s: State, t: Tid)
    requires CanContinue(s, t) && PcOk(s, s.threads[t]) && Extends(s, Step(s, t))
    requires s.threads[t].h !in s.handles
    requires s.threads[t].Read? ==> HandleOk(s, s.handles[s.threads[t].src])
    requires s.threads[t].LockBuild? ==> s.handles[s.threads[t].w].dest == Some(s.threads[t].b)
    ensures forall h :: h in Step(s, t).handles ==>
              || (h in s.handles && Step(s, t).handles[h] == s.handles[h])
              || HandleOk(Step(s, t), Step(s, t).handles[h])
  {
  }

  /** What a step does to the settled handles: nothing, store the target, or clear w. */
  lemma NextHandles(s: State, t: Tid)
    requires CanContinue(s, t) && PcOk(s, s.threads[t]) && s.threads[t].h !in s.handles
    ensures s.handles.Keys <= Step(s, t).handles.Keys <= s.handles.Keys + {s.threads[t].h}
    ensures !Step(s, t).threads[t].Idle? ==> Step(s, t).handles.Keys == s.handles.Keys && Step(s, t).threads[t].h == s.threads[t].h
    ensures forall p :: p in s.handles ==> SameSource(s, Step(s, t), p)
  {
  }

  lemma SeparateStep(s: State, s': State, t: Tid)
    requires Separate(s) && t in s.threads && t in s'.threads && s'.threads == s.threads[t := s'.threads[t]]
    requires !s.threads[t].Idle? && s'.handles.Keys <= s.handles.Keys + {s.threads[t].h}
    requires !s'.threads[t].Idle? ==> s'.handles.Keys == s.handles.Keys && s'.threads[t].h == s.threads[t].h
    ensures Separate(s')
  {
  }

  lemma SpinsStep(s: State, t: Tid)
    requires Spins(s) && CanContinue(s, t)
    ensures Spins(Step(s, t))
  {
    var pc := s.threads[t];
    if pc.LockSpin? || pc.LockLeave? || pc.LockLeaveDead? {
      SpinToggle(s, t);
    } else {
      SpinKept(s, t);
      CriticalKept(s, t);
      StepThreads(s, t);
      SpinQuiet(s, t, Step(s, t));
    }
  }

  lemma SpinToggle(s: State, t: Tid)
    requires Spins(s) && CanContinue(s, t)
    requires s.threads[t].LockSpin? || s.threads[t].LockLeave? || s.threads[t].LockLeaveDead?
    ensures Spins(Step(s, t))
  {
  }

  lemma SpinKept(s: State, t: Tid)
    requires CanContinue(s, t)
    requires !s.threads[t].LockSpin? && !s.threads[t].LockLeave? && !s.threads[t].LockLeaveDead?
    ensures SameSpins(s.blocks, Step(s, t).blocks)
  {
  }

  lemma CriticalKept(s: State, t: Tid)
    requires CanContinue(s, t)
    requires !s.threads[t].LockSpin? && !s.threads[t].LockLeave? && !s.threads[t].LockLeaveDead?
    ensures forall b :: InCritical(s.threads[t], b) <==> InCritical(Step(s, t).threads[t], b)
  {
  }

  lemma SpinQuiet(s: State, t: Tid, s': State)
    requires Spins(s) && t in s.threads && t in s'.threads && s'.threads == s.threads[t := s'.threads[t]]
    requires SameSpins(s.blocks, s'.blocks)
    requires forall b :: InCritical(s.threads[t], b) <==> InCritical(s'.threads[t], b)
    ensures Spins(s')
  {
  }

  lemma StepThreads(s: State, t: Tid)
    requires CanContinue(s, t)
    ensures t in Step(s, t).threads && Step(s, t).threads == s.threads[t := Step(s, t).threads[t]]
  {
  }

  lemma ShapesStep(s: State, t: Tid)
    requires Shapes(s) && Separate(s) && CanContinue(s, t) && Extends(s, Step(s, t))
    requires s.threads[t].LockInc? && Step(s, t).threads[t].LockUndo? ==> Dead(Step(s, t), s.threads[t].b)
    ensures Shapes(Step(s, t)) && Separate(Step(s, t))
  {
    assert PcOk(s, s.threads[t]);
    if s.threads[t].LockBuild? {
      StillKnown(s, t);
    }
    NextPc(s, t);
    NewHandleOk(s, t);
    NextHandles(s, t);
    StepThreads(s, t);
    ThreadsFrame(s, Step(s, t), t);
    HandlesFrame(s, Step(s, t));
    SeparateStep(s, Step(s, t), t);
  }

  lemma KeepStep(s: State, t: Tid)
    requires Inv(s) && CanContinue(s, t)
    ensures Inv(Step(s, t))
  {
    LedgersStep(s, t);
    if s.threads[t].LockInc? {
      LedgerLockInc(s, t, s.threads[t].b);
    }
    ShapesStep(s, t);
    SpinsStep(s, t);
  }

  // ------------------------------------------------- every operation starts well

  lemma FreshBlock(s: State, b: Bid)
    requires Shapes(s) && b !in s.blocks
    ensures Strong(s, b) == 0 && WeakUnits(s, b) == 0
    ensures Count(s.threads, TProbe(b)) == Count(s.threads, TDelete(b)) == Count(s.threads, TFree(b)) == 0
  {
    FreshHandles(s, b);
    if Count(s.threads, TStrong(b)) > 0 { var t := Witness(s.threads, TStrong(b)); assert false; }
    if Count(s.threads, TWeak(b)) > 0 { var t := Witness(s.threads, TWeak(b)); assert false; }
    if Count(s.threads, TProbe(b)) > 0 { var t := Witness(s.threads, TProbe(b)); assert false; }
    if Count(s.threads, TDelete(b)) > 0 { var t := Witness(s.threads, TDelete(b)); assert false; }
    if Count(s.threads, TFree(b)) > 0 { var t := Witness(s.threads, TFree(b)); assert false; }
  }

  lemma FreshHandles(s: State, b: Bid)
    requires Shapes(s) && b !in s.blocks
    ensures Count(s.handles, HStrong(b)) == 0 && Count(s.handles, HWeak(b)) == 0
  {
    if Count(s.handles, HStrong(b)) > 0 { var h := Witness(s.handles, HStrong(b)); assert false; }
    if Count(s.handles, HWeak(b)) > 0 { var h := Witness(s.handles, HWeak(b)); assert false; }
  }

  lemma LedgerNew(s: State, t: Tid, h: Hid, b: Bid, c: Bid)
    requires t in s.threads && s.threads[t].Idle? && h !in s.handles && CanBegin(s, New(h, b))
    requires c != b ==> c in s.blocks && Ledger(s, c, s.blocks[c])
    requires c == b ==> Strong(s, b) == 0 && WeakUnits(s, b) == 0
    requires c == b ==> Count(s.threads, TProbe(b)) == Count(s.threads, TDelete(b)) == Count(s.threads, TFree(b)) == 0
    ensures var s' := Start(s, t, New(h, b)); Ledger(s', c, s'.blocks[c]) && (c != b && Dead(s, c) ==> Dead(s', c))
  {
    var v := Handle(Shared, Some(b), Some(b));
    Move(s.threads, t, Idle, c);
    Put(s.handles, h, v, HStrong(c));
    Put(s.handles, h, v, HWeak(c));
  }

  /** The thread takes over the units of the handle it dissolves. */
  lemma ResetCarries(s: State, t: Tid, h: Hid, after: After, c: Bid)
    requires t in s.threads && h in s.handles && HandleOk(s, s.handles[h]) && !after.Keep?
    ensures var s' := StartReset(s, t, h, after);
            && s'.handles == s.handles - {h} && s'.blocks == s.blocks && s'.threads == s.threads[t := s'.threads[t]]
            && (TStrong(c)(s'.threads[t]) <==> HStrong(c)(s.handles[h])) && (TWeak(c)(s'.threads[t]) <==> HWeak(c)(s.handles[h]))
            && !TProbe(c)(s'.threads[t]) && !TDelete(c)(s'.threads[t]) && !TFree(c)(s'.threads[t])
  {
  }

  lemma LedgerReset(s: State, t: Tid, h: Hid, after: After, c: Bid)
    requires t in s.threads && s.threads[t].Idle? && h in s.handles && HandleOk(s, s.handles[h]) && !after.Keep?
    requires c in s.blocks && Ledger(s, c, s.blocks[c])
    ensures LedgerNext(s, StartReset(s, t, h, after), c)
  {
    ResetCarries(s, t, h, after, c);
    Move(s.threads, t, StartReset(s, t, h, after).threads[t], c);
    Take(s.handles, h, HStrong(c));
    Take(s.handles, h, HWeak(c));
  }

  lemma LedgerOther(s: State, t: Tid, op: Op, c: Bid)
    requires t in s.threads && s.threads[t].Idle? && CanBegin(s, op) && (op.Construct? || op.Lock?)
    requires c in s.blocks && Ledger(s, c, s.blocks[c])
    ensures LedgerNext(s, Start(s, t, op), c)
  {
    var s' := Start(s, t, op);
    if op.Lock? && s'.threads[t].Idle? {
      assert s'.handles == s.handles[op.h := NULL_SHARED];
      Put(s.handles, op.h, NULL_SHARED, HStrong(c));
      Put(s.handles, op.h, NULL_SHARED, HWeak(c));
    } else {
      assert s'.handles == s.handles;
    }
    LedgerQuiet(s, s', t, c);
  }

  predicate Disciplined(a: Action) {
    a.Begin? ==> !a.op.Reset?
  }

  lemma LedgerStart(s: State, t: Tid, op: Op, c: Bid)
    requires t in s.threads && s.threads[t].Idle? && CanBegin(s, op) && !op.Reset?
    requires op.Release? || op.AssignFrom? ==> HandleOk(s, s.handles[op.h])
    requires c in s.blocks && Ledger(s, c, s.blocks[c])
    ensures LedgerNext(s, Start(s, t, op), c)
  {
    match op {
      case New(h, b) => LedgerNew(s, t, h, b, c);
      case Construct(_, _, _) => LedgerOther(s, t, op, c);
      case Lock(_, _) => LedgerOther(s, t, op, c);
      case Release(h) => LedgerReset(s, t, h, Destroy, c);
      case AssignFrom(h, src) => if h != src { LedgerReset(s, t, h, Assign(src), c); }
    }
  }

  lemma StartBlocks(s: State, t: Tid, op: Op)
    requires CanBegin(s, op)
    ensures Start(s, t, op).blocks.Keys == s.blocks.Keys + (if op.New? then {op.b} else {})
  {
  }

  lemma LedgersNew(s: State, t: Tid, op: Op)
    requires Shapes(s) && Ledgers(s) && t in s.threads && s.threads[t].Idle? && CanBegin(s, op) && op.New?
    ensures Ledgers(Start(s, t, op)) && Extends(s, Start(s, t, op))
  {
    FreshBlock(s, op.b);
    forall c | c in Start(s, t, op).blocks
      ensures Ledger(Start(s, t, op), c, Start(s, t, op).blocks[c]) && (c != op.b && Dead(s, c) ==> Dead(Start(s, t, op), c))
    {
      LedgerNew(s, t, op.h, op.b, c);
    }
  }

  lemma LedgersStart(s: State, t: Tid, op: Op)
    requires Shapes(s) && Ledgers(s) && t in s.threads && s.threads[t].Idle? && CanBegin(s, op) && !op.Reset?
    ensures Ledgers(Start(s, t, op)) && Extends(s, Start(s, t, op))
  {
    if op.New? {
      LedgersNew(s, t, op);
    } else {
      StartBlocks(s, t, op);
      LedgersKept(s, t, op);
    }
  }

  lemma LedgersKept(s: State, t: Tid, op: Op)
    requires forall h :: h in s.handles ==> HandleOk(s, s.handles[h])
    requires Ledgers(s) && t in s.threads && s.threads[t].Idle? && CanBegin(s, op) && !op.Reset?
    ensures forall c :: c in s.blocks ==> LedgerNext(s, Start(s, t, op), c)
  {
    forall c | c in s.blocks ensures LedgerNext(s, Start(s, t, op), c) {
      LedgerStart(s, t, op, c);
    }
  }

  lemma StartShape(s: State, t: Tid, op: Op)
    requires t in s.threads && s.threads[t].Idle? && CanBegin(s, op) && !op.Reset? && Extends(s, Start(s, t, op))
    requires forall h :: h in s.handles ==> HandleOk(s, s.handles[h])
    requires op.New? ==> op.b in Start(s, t, op).blocks
    ensures PcOk(Start(s, t, op), Start(s, t, op).threads[t])
    ensures forall h :: h in Start(s, t, op).handles ==>
              || (h in s.handles && Start(s, t, op).handles[h] == s.handles[h])
              || HandleOk(Start(s, t, op), Start(s, t, op).handles[h])
  {
    if op.Release? || op.AssignFrom? || op.Lock? {
      assert HandleOk(s, s.handles[if op.Lock? then op.w else op.h]);
    }
  }

  /** Which handles and targets an operation moves. */
  lemma StartMoves(s: State, t: Tid, op: Op)
    requires t in s.threads && s.threads[t].Idle? && CanBegin(s, op)
    ensures t in Start(s, t, op).threads && Start(s, t, op).threads == s.threads[t := Start(s, t, op).threads[t]]
    ensures Start(s, t, op).handles.Keys <= s.handles.Keys + {op.h}
    ensures !Start(s, t, op).threads[t].Idle? ==>
              Start(s, t, op).threads[t].h == op.h && op.h !in Start(s, t, op).handles
    ensures forall p :: p in s.handles && (p != op.h || Fresh(s, op.h)) ==> SameSource(s, Start(s, t, op), p)
  {
  }

  lemma StartSeparate(s: State, t: Tid, op: Op)
    requires Separate(s) && t in s.threads && s.threads[t].Idle? && CanBegin(s, op)
    ensures Separate(Start(s, t, op))
  {
    var s' := Start(s, t, op);
    StartMoves(s, t, op);
    forall u | u in s.threads && u != t && !s.threads[u].Idle? ensures s.threads[u].h != op.h {
      if op.New? || op.Construct? || op.Lock? {
        assert Target(s.threads[u]) != Some(op.h);
      }
    }
  }

  lemma StartPins(s: State, t: Tid, op: Op)
    requires t in s.threads && s.threads[t].Idle? && CanBegin(s, op)
    ensures Moved(s, Start(s, t, op), t)
  {
    StartMoves(s, t, op);
  }

  lemma StartSpinsKept(s: State, t: Tid, op: Op)
    requires CanBegin(s, op) && !op.New?
    ensures SameSpins(s.blocks, Start(s, t, op).blocks)
  {
  }

  lemma StartSpinsNew(s: State, t: Tid, op: Op)
    requires Spins(s) && t in s.threads && s.threads[t].Idle? && CanBegin(s, op) && op.New?
    requires forall u :: u in s.threads ==> !InCritical(s.threads[u], op.b)
    ensures Spins(Start(s, t, op))
  {
  }

  lemma StartSpins(s: State, t: Tid, op: Op)
    requires Shapes(s) && Spins(s) && t in s.threads && s.threads[t].Idle? && CanBegin(s, op)
    ensures Spins(Start(s, t, op))
  {
    if op.New? {
      forall u | u in s.threads ensures !InCritical(s.threads[u], op.b) {
        assert PcOk(s, s.threads[u]);
      }
      StartSpinsNew(s, t, op);
    } else {
      StartSpinsKept(s, t, op);
      StartMoves(s, t, op);
      assert !Critical(Start(s, t, op).threads[t]);
      SpinQuiet(s, t, Start(s, t, op));
    }
  }

  lemma KeepStart(s: State, t: Tid, op: Op)
    requires Inv(s) && t in s.threads && s.threads[t].Idle? && CanBegin(s, op) && !op.Reset?
    ensures Inv(Start(s, t, op)) && Extends(s, Start(s, t, op))
  {
    LedgersStart(s, t, op);
    StartShapes(s, t, op);
    StartSeparate(s, t, op);
    StartSpins(s, t, op);
  }

  lemma StartShapes(s: State, t: Tid, op: Op)
    requires Shapes(s) && t in s.threads && s.threads[t].Idle? && CanBegin(s, op) && !op.Reset?
    requires Extends(s, Start(s, t, op))
    ensures Shapes(Start(s, t, op))
  {
    StartBlocks(s, t, op);
    StartShape(s, t, op);
    StartPins(s, t, op);
    ThreadsFrame(s, Start(s, t, op), t);
    HandlesFrame(s, Start(s, t, op));
  }

  lemma KeepInv(s: State, a: Action)
    requires Inv(s) && Enabled(s, a) && Disciplined(a)
    ensures Inv(Apply(s, a)) && Extends(s, Apply(s, a))
  {
    match a {
      case Begin(t, op) => KeepStart(s, t, op);
      case Continue(t) => KeepStep(s, t); LedgersStep(s, t);
    }
  }
}
