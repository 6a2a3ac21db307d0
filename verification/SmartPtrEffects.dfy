/** What a copy, an assignment, a destructor and a lock() leave behind when they are done, in every
    run of any number of threads (fflib/base/smart_ptr.h:95-274). */
module SmartPtrEffects {
  import opened Counting
  import opened Options
  import opened SmartPtr
  import opened SmartPtrSteps
  import opened SmartPtrLaws

  /** The thread is busy all through the run and idle at its end, and not before. */
  predicate Completes(s: State, t: Tid, run: seq<Action>)
    requires Runnable(s, run) && t in s.threads
    decreases |run|
  {
    if run == [] then s.threads[t].Idle?
    else !s.threads[t].Idle? && t in Apply(s, run[0]).threads && Completes(Apply(s, run[0]), t, run[1..])
  }

  function Actor(a: Action): Tid {
    match a
    case Begin(t, _) => t
    case Continue(t) => t
  }

  /** The fields of the source at the moment the thread reads them. */
  function FieldsRead(s: State, t: Tid, run: seq<Action>): Option<(Option<Bid>, Option<Bid>)>
    requires Runnable(s, run) && t in s.threads
    decreases |run|
  {
    if run == [] then None
    else if run[0] == Continue(t) && s.threads[t].Read? then
      Some((s.handles[s.threads[t].src].dest, s.handles[s.threads[t].src].ref))
    else if t in Apply(s, run[0]).threads then FieldsRead(Apply(s, run[0]), t, run[1..])
    else None
  }

  /** Whether the object has a strong owner at the moment lock() increments the strong count. */
  ghost function OwnerAtIncrement(s: State, t: Tid, run: seq<Action>): Option<bool>
    requires Runnable(s, run) && t in s.threads
    decreases |run|
  {
    if run == [] then None
    else if run[0] == Continue(t) && s.threads[t].LockInc? then Some(!Dead(s, s.threads[t].b))
    else if t in Apply(s, run[0]).threads then OwnerAtIncrement(Apply(s, run[0]), t, run[1..])
    else None
  }

  lemma StepMovesOne(s: State, u: Tid, t: Tid)
    requires CanContinue(s, u) && u != t && t in s.threads
    ensures t in Step(s, u).threads && Step(s, u).threads[t] == s.threads[t]
  {
  }

  lemma StartMovesOne(s: State, u: Tid, op: Op, t: Tid)
    requires CanBegin(s, op) && u != t && t in s.threads
    ensures t in Start(s, u, op).threads && Start(s, u, op).threads[t] == s.threads[t]
  {
  }

  /** Nobody moves a thread but itself. */
  lemma OthersLeave(s: State, a: Action, t: Tid)
    requires Enabled(s, a) && Actor(a) != t && t in s.threads
    ensures t in Apply(s, a).threads && Apply(s, a).threads[t] == s.threads[t]
  {
    match a {
      case Begin(u, op) => StartMovesOne(s, u, op, t);
      case Continue(u) => StepMovesOne(s, u, t);
    }
  }

  lemma BusyContinues(s: State, a: Action, t: Tid)
    requires Enabled(s, a) && Actor(a) == t && t in s.threads && !s.threads[t].Idle?
    ensures a == Continue(t) && t in Apply(s, a).threads
  {
  }

  lemma IdleEnds(s: State, t: Tid, run: seq<Action>)
    requires Runnable(s, run) && t in s.threads && s.threads[t].Idle? && Completes(s, t, run)
    ensures run == []
  {
  }

  // ---------------------------------------------------------- copy and assignment

  /** The handle a thread is about to settle has its fields already, or gets them from the
      source when it reads it. */
  predicate Copying(pc: Pc) {
    pc.IncStrong? || pc.IncWeak? || pc.Read?
  }

  predicate CopiedTo(s: State, h: Hid, kind: Kind, fields: Option<(Option<Bid>, Option<Bid>)>) {
    fields.Some? && h in s.handles && s.handles[h] == Handle(kind, fields.value.0, fields.value.1)
  }

  /** What the thread's copy comes to. */
  predicate CopyDone(s: State, t: Tid, run: seq<Action>)
    requires Runnable(s, run) && t in s.threads && Copying(s.threads[t])
  {
    var pc := s.threads[t];
    if pc.Read? then CopiedTo(Run(s, run), pc.h, pc.kind, FieldsRead(s, t, run))
    else pc.h in Run(s, run).handles && Run(s, run).handles[pc.h] == pc.v
  }

  lemma {:induction false} CopyCompletes(s: State, t: Tid, run: seq<Action>)
    requires Runnable(s, run) && t in s.threads && Copying(s.threads[t]) && Completes(s, t, run)
    ensures CopyDone(s, t, run)
    decreases |run|
  {
    if run != [] {
      var s1 := Apply(s, run[0]);
      if Actor(run[0]) == t {
        BusyContinues(s, run[0], t);
        if s1.threads[t].Idle? {
          IdleEnds(s1, t, run[1..]);
        } else {
          CopyCompletes(s1, t, run[1..]);
        }
      } else {
        OthersLeave(s, run[0], t);
        CopyCompletes(s1, t, run[1..]);
      }
    }
  }

  /** A constructed handle has the fields its source had when it was read. */
  lemma ConstructDelivers(s: State, t: Tid, h: Hid, kind: Kind, src: Hid, run: seq<Action>)
    requires Enabled(s, Begin(t, Construct(h, kind, src)))
    requires Runnable(Apply(s, Begin(t, Construct(h, kind, src))), run)
    requires Completes(Apply(s, Begin(t, Construct(h, kind, src))), t, run)
    ensures var s1 := Apply(s, Begin(t, Construct(h, kind, src)));
            CopiedTo(Run(s1, run), h, kind, FieldsRead(s1, t, run))
  {
    CopyCompletes(Apply(s, Begin(t, Construct(h, kind, src))), t, run);
  }

  predicate Dropping(pc: Pc) {
    pc.DropStrong? || pc.DeleteObject? || pc.DropWeak? || pc.FreeRef?
  }

  /** What the thread's release comes to: no handle, or the copy that follows it. */
  predicate DropDone(s: State, t: Tid, run: seq<Action>)
    requires Runnable(s, run) && t in s.threads && Dropping(s.threads[t])
  {
    var pc := s.threads[t];
    match pc.after
    case Destroy => pc.h !in Run(s, run).handles
    case Assign(src) => CopiedTo(Run(s, run), pc.h, pc.v.kind, FieldsRead(s, t, run))
    case Keep => true
  }

  lemma DropAdvances(s: State, t: Tid)
    requires CanContinue(s, t) && Dropping(s.threads[t]) && PcOk(s, s.threads[t]) && s.threads[t].h !in s.handles
    ensures var pc, s1 := s.threads[t], Step(s, t);
            && t in s1.threads
            && s1.handles == s.handles
            && (s1.threads[t].Idle? ==> pc.after.Destroy?)
            && (s1.threads[t].Read? ==> pc.after.Assign? && s1.threads[t] == Read(pc.h, pc.v.kind, pc.after.src))
            && (!s1.threads[t].Idle? && !s1.threads[t].Read? ==>
                  Dropping(s1.threads[t]) && s1.threads[t].h == pc.h && s1.threads[t].v.kind == pc.v.kind && s1.threads[t].after == pc.after)
  {
  }

  lemma {:induction false} DropCompletes(s: State, t: Tid, run: seq<Action>)
    requires Inv(s) && Runnable(s, run) && t in s.threads && Dropping(s.threads[t]) && Completes(s, t, run)
    ensures DropDone(s, t, run)
    decreases |run|
  {
    if run != [] {
      var s1 := Apply(s, run[0]);
      KeepInv(s, run[0]);
      if Actor(run[0]) == t {
        BusyContinues(s, run[0], t);
        assert PcOk(s, s.threads[t]);
        DropAdvances(s, t);
        if s1.threads[t].Idle? {
          IdleEnds(s1, t, run[1..]);
        } else if s1.threads[t].Read? {
          CopyCompletes(s1, t, run[1..]);
        } else {
          DropCompletes(s1, t, run[1..]);
        }
      } else {
        OthersLeave(s, run[0], t);
        DropCompletes(s1, t, run[1..]);
      }
    }
  }

  /** After a destructor the handle is gone. */
  lemma ReleaseDelivers(s: State, t: Tid, h: Hid, run: seq<Action>)
    requires Reachable(s) && Enabled(s, Begin(t, Release(h)))
    requires Runnable(Apply(s, Begin(t, Release(h))), run) && Completes(Apply(s, Begin(t, Release(h))), t, run)
    ensures h !in Run(Apply(s, Begin(t, Release(h))), run).handles
  {
    var s1 := Apply(s, Begin(t, Release(h)));
    ReachableInv(s);
    KeepInv(s, Begin(t, Release(h)));
    if s1.threads[t].Idle? {
      IdleEnds(s1, t, run);
    } else {
      DropCompletes(s1, t, run);
    }
  }

  lemma AssignStarts(s: State, t: Tid, h: Hid, src: Hid)
    requires Enabled(s, Begin(t, AssignFrom(h, src))) && src != h
    ensures var pc := Apply(s, Begin(t, AssignFrom(h, src))).threads[t];
            || pc == Read(h, s.handles[h].kind, src)
            || (Dropping(pc) && pc.h == h && pc.v == s.handles[h] && pc.after == Assign(src))
  {
  }

  lemma AssignEnds(s: State, t: Tid, h: Hid, kind: Kind, src: Hid, run: seq<Action>)
    requires Inv(s) && Runnable(s, run) && t in s.threads && Completes(s, t, run)
    requires var pc := s.threads[t];
             pc == Read(h, kind, src) || (Dropping(pc) && pc.h == h && pc.v.kind == kind && pc.after == Assign(src))
    ensures CopiedTo(Run(s, run), h, kind, FieldsRead(s, t, run))
  {
    if s.threads[t].Read? {
      CopyCompletes(s, t, run);
    } else {
      DropCompletes(s, t, run);
    }
  }

  /** After an assignment the target keeps its kind and has the fields its source had when it was
      read; assigned to itself it is as before. */
  lemma AssignDelivers(s: State, t: Tid, h: Hid, src: Hid, run: seq<Action>)
    requires Reachable(s) && Enabled(s, Begin(t, AssignFrom(h, src)))
    requires Runnable(Apply(s, Begin(t, AssignFrom(h, src))), run)
    requires Completes(Apply(s, Begin(t, AssignFrom(h, src))), t, run)
    ensures var s1 := Apply(s, Begin(t, AssignFrom(h, src)));
            if src == h then run == [] && s1 == s
            else CopiedTo(Run(s1, run), h, s.handles[h].kind, FieldsRead(s1, t, run))
  {
    var s1 := Apply(s, Begin(t, AssignFrom(h, src)));
    if src == h {
      IdleEnds(s1, t, run);
    } else {
      ReachableInv(s);
      KeepInv(s, Begin(t, AssignFrom(h, src)));
      AssignStarts(s, t, h, src);
      AssignEnds(s1, t, h, s.handles[h].kind, src, run);
    }
  }

  // ----------------------------------------------------------------------- lock()

  predicate Locking(pc: Pc) {
    pc.LockSpin? || pc.LockInc? || pc.LockUndo? || pc.LockForget? || pc.LockLeaveDead? || pc.LockLeave? || pc.LockBuild?
  }

  /** While lock() reads w, others at most clear its m_dest_ptr. */
  lemma PinnedStays(s: State, a: Action, t: Tid, w: Hid)
    requires Separate(s) && Enabled(s, a) && Disciplined(a) && Actor(a) != t && t in s.threads
    requires Pin(s.threads[t]) == Some(w) && w in s.handles && s.handles[w].dest.None?
    ensures w in Apply(s, a).handles && Apply(s, a).handles[w].dest.None?
  {
  }

  predicate Delivered(s: State, h: Hid, b: Bid) {
    h in s.handles && s.handles[h] == Handle(Shared, Some(b), Some(b))
  }

  predicate Refused(s: State, h: Hid, w: Hid) {
    && h in s.handles && s.handles[h] == NULL_SHARED
    && w in s.handles && s.handles[w].dest.None?
  }

  /** What a lock() comes to, by how far it is. */
  ghost predicate LockDone(s: State, t: Tid, run: seq<Action>)
    requires Runnable(s, run) && t in s.threads && Locking(s.threads[t])
  {
    var pc := s.threads[t];
    var s' := Run(s, run);
    if pc.LockSpin? || pc.LockInc? then
      var owner := OwnerAtIncrement(s, t, run);
      owner.Some? && if owner.value then Delivered(s', pc.h, pc.b) else Refused(s', pc.h, pc.w)
    else if pc.LockLeave? || pc.LockBuild? then Delivered(s', pc.h, pc.b)
    else if pc.LockLeaveDead? then
      pc.w in s.handles && s.handles[pc.w].dest.None? ==> Refused(s', pc.h, pc.w)
    else Refused(s', pc.h, pc.w)
  }

  lemma {:induction false} LockCompletes(s: State, t: Tid, run: seq<Action>)
    requires Inv(s) && Runnable(s, run) && t in s.threads && Locking(s.threads[t]) && Completes(s, t, run)
    ensures LockDone(s, t, run)
    decreases |run|
  {
    if run != [] {
      KeepInv(s, run[0]);
      if Actor(run[0]) == t {
        BusyContinues(s, run[0], t);
        LockAdvances(s, t, run);
      } else {
        LockWaits(s, t, run);
      }
    }
  }

  /** Another thread's step changes nothing for this lock(). */
  lemma {:induction false} LockWaits(s: State, t: Tid, run: seq<Action>)
    requires Inv(s) && Runnable(s, run) && t in s.threads && Locking(s.threads[t]) && Completes(s, t, run)
    requires run != [] && Actor(run[0]) != t && Inv(Apply(s, run[0]))
    ensures LockDone(s, t, run)
    decreases |run|, 0
  {
    var pc := s.threads[t];
    OthersLeave(s, run[0], t);
    LockCompletes(Apply(s, run[0]), t, run[1..]);
    assert PcOk(s, pc);
    if pc.LockLeaveDead? && s.handles[pc.w].dest.None? {
      PinnedStays(s, run[0], t, pc.w);
    }
  }

  /** Its own step. */
  lemma {:induction false} LockAdvances(s: State, t: Tid, run: seq<Action>)
    requires Inv(s) && Runnable(s, run) && t in s.threads && Locking(s.threads[t]) && Completes(s, t, run)
    requires run != [] && run[0] == Continue(t) && Inv(Apply(s, run[0]))
    ensures LockDone(s, t, run)
    decreases |run|, 0
  {
    var pc := s.threads[t];
    var s1 := Apply(s, run[0]);
    assert PcOk(s, pc);
    if pc.LockLeaveDead? {
      IdleEnds(s1, t, run[1..]);
    } else if pc.LockBuild? {
      StillKnown(s, t);
      CopyCompletes(s1, t, run[1..]);
    } else {
      if pc.LockInc? {
        LedgerLockInc(s, t, pc.b);
      }
      LockCompletes(s1, t, run[1..]);
    }
  }

  /** A lock() that is done has given a SharedPtr to the object if the object had a strong owner at
      the increment; otherwise, and if the WeakPtr had a null field, the null SharedPtr. */
  lemma LockDelivers(s: State, t: Tid, h: Hid, w: Hid, run: seq<Action>)
    requires Reachable(s) && Enabled(s, Begin(t, Lock(h, w)))
    requires Runnable(Apply(s, Begin(t, Lock(h, w))), run) && Completes(Apply(s, Begin(t, Lock(h, w))), t, run)
    ensures var s1 := Apply(s, Begin(t, Lock(h, w)));
            var s' := Run(s1, run);
            var v := s.handles[w];
            if v.dest.None? || v.ref.None? then h in s'.handles && s'.handles[h] == NULL_SHARED
            else
              var owner := OwnerAtIncrement(s1, t, run);
              owner.Some? && if owner.value then Delivered(s', h, v.ref.value) else Refused(s', h, w)
  {
    var s1 := Apply(s, Begin(t, Lock(h, w)));
    ReachableInv(s);
    KeepInv(s, Begin(t, Lock(h, w)));
    if s1.threads[t].Idle? {
      IdleEnds(s1, t, run);
    } else {
      LockCompletes(s1, t, run);
    }
  }

  // ------------------------------------------------------- without program counters

  lemma {:induction false} DeadAtIncrement(s: State, t: Tid, run: seq<Action>)
    requires Inv(s) && Runnable(s, run) && t in s.threads && (s.threads[t].LockSpin? || s.threads[t].LockInc?)
    requires OwnerAtIncrement(s, t, run).Some? && s.threads[t].b in s.blocks
    ensures Dead(s, s.threads[t].b) ==> !OwnerAtIncrement(s, t, run).value
    ensures !OwnerAtIncrement(s, t, run).value ==> Dead(Run(s, run), s.threads[t].b)
    decreases |run|
  {
    var b := s.threads[t].b;
    var s1 := Apply(s, run[0]);
    KeepInv(s, run[0]);
    if run[0] == Continue(t) && s.threads[t].LockInc? {
      RunKeepsInv(s, run);
    } else {
      if Actor(run[0]) == t {
        BusyContinues(s, run[0], t);
      } else {
        OthersLeave(s, run[0], t);
      }
      DeadAtIncrement(s1, t, run[1..]);
    }
  }

  /** lock() on an object without owners gives the null SharedPtr; lock() on one that still has
      another SharedPtr g when it is done gives a SharedPtr to it. */
  lemma LockTells(s: State, t: Tid, h: Hid, w: Hid, run: seq<Action>, g: Hid)
    requires Reachable(s) && Enabled(s, Begin(t, Lock(h, w))) && s.handles[w].dest.Some? && s.handles[w].ref.Some?
    requires Runnable(Apply(s, Begin(t, Lock(h, w))), run) && Completes(Apply(s, Begin(t, Lock(h, w))), t, run)
    ensures var b := s.handles[w].ref.value;
            var s' := Run(Apply(s, Begin(t, Lock(h, w))), run);
            && (Dead(s, b) ==> Refused(s', h, w))
            && (g != h && Delivered(s', g, b) ==> Delivered(s', h, b))
  {
    var s1 := Apply(s, Begin(t, Lock(h, w)));
    var b := s.handles[w].ref.value;
    ReachableInv(s);
    KeepInv(s, Begin(t, Lock(h, w)));
    LockDelivers(s, t, h, w, run);
    assert HandleOk(s, s.handles[w]);
    DeadAtIncrement(s1, t, run);
    if Delivered(Run(s1, run), g, b) {
      Member(Run(s1, run).handles, g, HStrong(b));
    }
  }

  /** The steps a busy thread still has to take. */
  function StepsOf(pc: Pc): nat {
    match pc
    case Idle => 0
    case DropStrong(_, _, _) => 7
    case DeleteObject(_, _, _) => 6
    case DropWeak(_, _, _) => 5
    case FreeRef(_, _, _) => 4
    case Read(_, _, _) => 3
    case IncStrong(_, _, _) => 2
    case IncWeak(_, _, _) => 1
    case LockSpin(_, _, _) => 5
    case LockInc(_, _, _) => 4
    case LockUndo(_, _, _) => 3
    case LockForget(_, _, _) => 2
    case LockLeaveDead(_, _, _) => 1
    case LockLeave(_, _, _) => 3
    case LockBuild(_, _, _) => 2
  }

  /** A busy thread that does not wait for the spin lock completes in at most seven steps of its own. */
  lemma {:induction false} CanComplete(s: State, t: Tid) returns (run: seq<Action>)
    requires Inv(s) && t in s.threads && (s.threads[t].LockSpin? ==> s.blocks[s.threads[t].b].spin.None?)
    ensures Runnable(s, run) && Completes(s, t, run) && |run| <= StepsOf(s.threads[t])
    ensures forall a :: a in run ==> a == Continue(t)
    decreases StepsOf(s.threads[t])
  {
    if s.threads[t].Idle? {
      return [];
    }
    assert PcOk(s, s.threads[t]);
    CanGoOn(s, t);
    KeepInv(s, Continue(t));
    OneStepLess(s, t);
    var rest := CanComplete(Step(s, t), t);
    run := [Continue(t)] + rest;
    assert run[1..] == rest;
  }

  lemma OneStepLess(s: State, t: Tid)
    requires CanContinue(s, t)
    ensures t in Step(s, t).threads && StepsOf(Step(s, t).threads[t]) < StepsOf(s.threads[t])
    ensures !Step(s, t).threads[t].LockSpin?
  {
  }
}
