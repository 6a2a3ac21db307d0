/** Reference-counted pointers (fflib/base/smart_ptr.h) as a system of threads whose steps
    are the single atomic operations of the code.

    `RefData` is a control block; a block and the object it counts share one name, because
    each block is created for one object.  A settled handle lives in `handles`; while a
    thread constructs, assigns or destroys a handle, the handle's two fields travel in that
    thread's program counter. */
module SmartPtr {
  import opened Counting
  import opened Options

  type Tid = nat
  type Hid = nat
  type Bid = nat

  /** Control block, plus how often its object and the block itself have been deleted. */
  datatype RefData = RefData(strong: int, weak: int, spin: Option<Tid>, deletes: nat, frees: nat)

  datatype Kind = Shared | Weak

  /** `dest` is m_dest_ptr, `ref` is m_ref_data. */
  datatype Handle = Handle(kind: Kind, dest: Option<Bid>, ref: Option<Bid>)

  const NULL_SHARED := Handle(Shared, None, None)

  /** What happens once reset() returns: the storage goes away, operator= copies `src`,
      or the caller asked for reset() itself and keeps the handle. */
  datatype After = Destroy | Assign(src: Hid) | Keep

  datatype Pc =
    | Idle
    | DropStrong(h: Hid, v: Handle, after: After)    // m_ref_count.dec_and_check_zero()
    | DeleteObject(h: Hid, v: Handle, after: After)  // delete m_dest_ptr
    | DropWeak(h: Hid, v: Handle, after: After)      // m_weak_ref_count.dec_and_check_zero()
    | FreeRef(h: Hid, v: Handle, after: After)       // delete m_ref_data
    | Read(h: Hid, kind: Kind, src: Hid)             // take both fields of the source handle
    | IncStrong(h: Hid, v: Handle, src: Hid)
    | IncWeak(h: Hid, v: Handle, src: Hid)
    | LockSpin(h: Hid, b: Bid, w: Hid)               // lock(): acquire m_mutex
    | LockInc(h: Hid, b: Bid, w: Hid)                // inc_and_fetch(1) == 1 ?
    | LockUndo(h: Hid, b: Bid, w: Hid)               // dead: take the unit back
    | LockForget(h: Hid, b: Bid, w: Hid)             // dead: m_dest_ptr = NULL
    | LockLeaveDead(h: Hid, b: Bid, w: Hid)          // dead: release m_mutex
    | LockLeave(h: Hid, b: Bid, w: Hid)              // alive: release m_mutex
    | LockBuild(h: Hid, b: Bid, w: Hid)              // shared_type_t(m_dest_ptr, m_ref_data)

  datatype State = State(blocks: map<Bid, RefData>, handles: map<Hid, Handle>, threads: map<Tid, Pc>)

  datatype Op =
    | New(h: Hid, b: Bid)                      // SharedPtr(object_t*)
    | Construct(h: Hid, kind: Kind, src: Hid)  // copy constructors, WeakPtr(const SharedPtr&)
    | Release(h: Hid)                          // either destructor
    | AssignFrom(h: Hid, src: Hid)             // either operator=
    | Reset(h: Hid)                            // explicit reset()
    | Lock(h: Hid, w: Hid)                     // WeakPtr::lock() with result handle h

  datatype Action = Begin(t: Tid, op: Op) | Continue(t: Tid)

  // ------------------------------------------------------------------ steps

  /** The handle a thread is building or taking apart. */
  function Target(pc: Pc): Option<Hid> {
    if pc.Idle? then None else Some(pc.h)
  }

  /** The settled handle an operation reads; its owner must keep it in place meanwhile. */
  function Pin(pc: Pc): Option<Hid> {
    match pc
    case Idle => None
    case DropStrong(_, _, after) => if after.Assign? then Some(after.src) else None
    case DeleteObject(_, _, after) => if after.Assign? then Some(after.src) else None
    case DropWeak(_, _, after) => if after.Assign? then Some(after.src) else None
    case FreeRef(_, _, after) => if after.Assign? then Some(after.src) else None
    case Read(_, _, src) => Some(src)
    case IncStrong(_, _, src) => Some(src)
    case IncWeak(_, _, src) => Some(src)
    case _ => Some(pc.w)
  }

  /** The control block whose memory the next step of `pc` reads or writes. */
  function Touches(pc: Pc): Option<Bid> {
    match pc
    case Idle => None
    case DropStrong(_, v, _) => v.ref
    case DeleteObject(_, v, _) => v.dest
    case DropWeak(_, v, _) => v.ref
    case FreeRef(_, v, _) => v.ref
    case Read(_, _, _) => None
    case IncStrong(_, v, _) => v.ref
    case IncWeak(_, v, _) => v.ref
    case LockForget(_, _, _) => None
    case LockBuild(_, _, _) => None
    case _ => Some(pc.b)
  }

  predicate Fresh(s: State, h: Hid) {
    h !in s.handles && forall t :: t in s.threads ==> Target(s.threads[t]) != Some(h)
  }

  predicate Unpinned(s: State, h: Hid) {
    forall t :: t in s.threads ==> Pin(s.threads[t]) != Some(h)
  }

  /** What C++ asks of the caller: constructors get unused storage, sources exist and have
      a convertible type, and a handle is not destroyed or overwritten while being read. */
  predicate CanBegin(s: State, op: Op) {
    match op
    case New(h, b) => Fresh(s, h) && b !in s.blocks
    case Construct(h, kind, src) =>
      Fresh(s, h) && src in s.handles && (kind.Shared? ==> s.handles[src].kind.Shared?)
    case Release(h) => h in s.handles && Unpinned(s, h)
    case Reset(h) => h in s.handles && Unpinned(s, h)
    case AssignFrom(h, src) =>
      && h in s.handles && Unpinned(s, h) && src in s.handles
      && (s.handles[h].kind.Shared? ==> s.handles[src].kind.Shared?)
    case Lock(h, w) => Fresh(s, h) && w in s.handles && s.handles[w].kind.Weak?
  }

  /** A thread can take its next step unless it is idle, its memory is unknown, or it waits
      for the spin lock. */
  predicate CanContinue(s: State, t: Tid) {
    && t in s.threads && !s.threads[t].Idle?
    && var pc := s.threads[t];
    && (Touches(pc).Some? ==> Touches(pc).value in s.blocks)
    && (pc.DropStrong? || pc.DropWeak? || pc.FreeRef? || pc.IncStrong? || pc.IncWeak? ==> pc.v.ref.Some?)
    && (pc.DeleteObject? ==> pc.v.dest.Some?)
    && (pc.Read? ==> pc.src in s.handles)
    && (pc.LockForget? || pc.LockBuild? ==> pc.w in s.handles)
    && (pc.LockSpin? ==> s.blocks[pc.b].spin.None?)
  }

  predicate Enabled(s: State, a: Action) {
    match a
    case Begin(t, op) => t in s.threads && s.threads[t].Idle? && CanBegin(s, op)
    case Continue(t) => CanContinue(s, t)
  }

  function Goto(s: State, t: Tid, pc: Pc): State {
    s.(threads := s.threads[t := pc])
  }

  function Settle(s: State, t: Tid, h: Hid, v: Handle): State {
    s.(handles := s.handles[h := v], threads := s.threads[t := Idle])
  }

  /** The end of reset(): WeakPtr clears m_dest_ptr, SharedPtr leaves the fields alone. */
  function AfterReset(s: State, t: Tid, h: Hid, v: Handle, after: After): State {
    var v := if v.kind.Weak? then v.(dest := None) else v;
    match after
    case Destroy => Goto(s, t, Idle)
    case Assign(src) => Goto(s, t, Read(h, v.kind, src))
    case Keep => Settle(s, t, h, v)
  }

  /** The start of reset(): the null tests of SharedPtr and of WeakPtr. */
  function StartReset(s: State, t: Tid, h: Hid, after: After): State
    requires h in s.handles
  {
    var v := s.handles[h];
    var s := s.(handles := s.handles - {h});
    if v.kind.Shared? && v.dest.Some? then Goto(s, t, DropStrong(h, v, after))
    else if v.kind.Weak? && v.ref.Some? then Goto(s, t, DropWeak(h, v, after))
    else AfterReset(s, t, h, v, after)
  }

  function Start(s: State, t: Tid, op: Op): State
    requires CanBegin(s, op)
  {
    match op
    case New(h, b) =>
      Settle(s.(blocks := s.blocks[b := RefData(1, 1, None, 0, 0)]), t, h, Handle(Shared, Some(b), Some(b)))
    case Construct(h, kind, src) => Goto(s, t, Read(h, kind, src))
    case Release(h) => StartReset(s, t, h, Destroy)
    case Reset(h) => StartReset(s, t, h, Keep)
    case AssignFrom(h, src) => if src == h then s else StartReset(s, t, h, Assign(src))
    case Lock(h, w) =>
      var v := s.handles[w];
      if v.dest.None? || v.ref.None? then Settle(s, t, h, NULL_SHARED)
      else Goto(s, t, LockSpin(h, v.ref.value, w))
  }

  function SetBlock(s: State, b: Bid, k: RefData): State {
    s.(blocks := s.blocks[b := k])
  }

  function Step(s: State, t: Tid): State
    requires CanContinue(s, t)
  {
    var pc := s.threads[t];
    match pc
    case DropStrong(h, v, after) =>
      var k := s.blocks[v.ref.value];
      Goto(SetBlock(s, v.ref.value, k.(strong := k.strong - 1)), t,
        if k.strong - 1 == 0 then DeleteObject(h, v, after) else DropWeak(h, v, after))
    case DeleteObject(h, v, after) =>
      var k := s.blocks[v.dest.value];
      Goto(SetBlock(s, v.dest.value, k.(deletes := k.deletes + 1)), t, DropWeak(h, v.(dest := None), after))
    case DropWeak(h, v, after) =>
      var k := s.blocks[v.ref.value];
      var s := SetBlock(s, v.ref.value, k.(weak := k.weak - 1));
      if k.weak - 1 == 0 then Goto(s, t, FreeRef(h, v, after)) else AfterReset(s, t, h, v, after)
    case FreeRef(h, v, after) =>
      var k := s.blocks[v.ref.value];
      AfterReset(SetBlock(s, v.ref.value, k.(frees := k.frees + 1)), t, h, v.(ref := None), after)
    case Read(h, kind, src) =>
      var v := Handle(kind, s.handles[src].dest, s.handles[src].ref);
      if kind.Shared? && v.dest.Some? then Goto(s, t, IncStrong(h, v, src))
      else if kind.Weak? && v.ref.Some? then Goto(s, t, IncWeak(h, v, src))
      else Settle(s, t, h, v)
    case IncStrong(h, v, src) =>
      var k := s.blocks[v.ref.value];
      Goto(SetBlock(s, v.ref.value, k.(strong := k.strong + 1)), t, IncWeak(h, v, src))
    case IncWeak(h, v, src) =>
      var k := s.blocks[v.ref.value];
      Settle(SetBlock(s, v.ref.value, k.(weak := k.weak + 1)), t, h, v)
    case LockSpin(h, b, w) =>
      Goto(SetBlock(s, b, s.blocks[b].(spin := Some(t))), t, LockInc(h, b, w))
    case LockInc(h, b, w) =>
      var k := s.blocks[b];
      Goto(SetBlock(s, b, k.(strong := k.strong + 1)), t,
        if k.strong + 1 == 1 then LockUndo(h, b, w) else LockLeave(h, b, w))
    case LockUndo(h, b, w) =>
      var k := s.blocks[b];
      Goto(SetBlock(s, b, k.(strong := k.strong - 1)), t, LockForget(h, b, w))
    case LockForget(h, b, w) =>
      Goto(s.(handles := s.handles[w := s.handles[w].(dest := None)]), t, LockLeaveDead(h, b, w))
    case LockLeaveDead(h, b, w) =>
      Settle(SetBlock(s, b, s.blocks[b].(spin := None)), t, h, NULL_SHARED)
    case LockLeave(h, b, w) =>
      Goto(SetBlock(s, b, s.blocks[b].(spin := None)), t, LockBuild(h, b, w))
    case LockBuild(h, b, w) =>
      var v := Handle(Shared, s.handles[w].dest, s.handles[w].ref);
      if v.dest.Some? then Goto(s, t, IncWeak(h, v, w)) else Settle(s, t, h, v)
  }

  function Apply(s: State, a: Action): State
    requires Enabled(s, a)
  {
    match a
    case Begin(t, op) => Start(s, t, op)
    case Continue(t) => Step(s, t)
  }

  // ------------------------------------------------------- counting owners

  /** Does a settled handle own a strong unit of block b? */
  function HStrong(b: Bid): Handle -> bool {
    (v: Handle) => v.kind.Shared? && v.dest == Some(b)
  }

  function HWeak(b: Bid): Handle -> bool {
    (v: Handle) => if v.kind.Shared? then v.dest == Some(b) else v.ref == Some(b)
  }

  /** Does a thread hold a strong unit of block b? */
  function TStrong(b: Bid): Pc -> bool {
    (pc: Pc) =>
      || (pc.DropStrong? && pc.v.ref == Some(b))
      || (pc.IncWeak? && pc.v.kind.Shared? && pc.v.ref == Some(b))
      || ((pc.LockLeave? || pc.LockBuild?) && pc.b == b)
  }

  /** The unit lock() adds to a dead count and takes back. */
  function TProbe(b: Bid): Pc -> bool {
    (pc: Pc) => pc.LockUndo? && pc.b == b
  }

  function TWeak(b: Bid): Pc -> bool {
    (pc: Pc) => (pc.DropStrong? || pc.DeleteObject? || pc.DropWeak?) && pc.v.ref == Some(b)
  }

  function TDelete(b: Bid): Pc -> bool {
    (pc: Pc) => pc.DeleteObject? && pc.v.ref == Some(b)
  }

  function TFree(b: Bid): Pc -> bool {
    (pc: Pc) => pc.FreeRef? && pc.v.ref == Some(b)
  }

  /** The five counts of one block after thread t moves to pc. */
  lemma Move(ts: map<Tid, Pc>, t: Tid, pc: Pc, b: Bid)
    requires t in ts
    ensures Count(ts[t := pc], TStrong(b)) == Count(ts, TStrong(b)) - One(TStrong(b)(ts[t])) + One(TStrong(b)(pc))
    ensures Count(ts[t := pc], TProbe(b)) == Count(ts, TProbe(b)) - One(TProbe(b)(ts[t])) + One(TProbe(b)(pc))
    ensures Count(ts[t := pc], TWeak(b)) == Count(ts, TWeak(b)) - One(TWeak(b)(ts[t])) + One(TWeak(b)(pc))
    ensures Count(ts[t := pc], TDelete(b)) == Count(ts, TDelete(b)) - One(TDelete(b)(ts[t])) + One(TDelete(b)(pc))
    ensures Count(ts[t := pc], TFree(b)) == Count(ts, TFree(b)) - One(TFree(b)(ts[t])) + One(TFree(b)(pc))
  {
    Put(ts, t, pc, TStrong(b));
    Put(ts, t, pc, TProbe(b));
    Put(ts, t, pc, TWeak(b));
    Put(ts, t, pc, TDelete(b));
    Put(ts, t, pc, TFree(b));
  }

  // -------------------------------------------------------------- invariant

  /** Live strong units: settled SharedPtrs and the threads that hold one. */
  ghost function Strong(s: State, b: Bid): nat {
    Count(s.handles, HStrong(b)) + Count(s.threads, TStrong(b))
  }

  ghost function WeakUnits(s: State, b: Bid): nat {
    Count(s.handles, HWeak(b)) + Count(s.threads, TWeak(b))
  }

  ghost predicate Dead(s: State, b: Bid) {
    Strong(s, b) == 0
  }

  /** A clean handle: m_dest_ptr and m_ref_data agree, except that a WeakPtr may have
      learnt that its object is gone. */
  ghost predicate HandleOk(s: State, v: Handle) {
    && (v.ref.Some? ==> v.ref.value in s.blocks)
    && (v.dest != v.ref ==> v.kind.Weak? && v.dest.None? && Dead(s, v.ref.value))
  }

  predicate SourceOk(s: State, kind: Kind, src: Hid) {
    src in s.handles && (kind.Shared? ==> s.handles[src].kind.Shared?)
  }

  predicate AfterOk(s: State, kind: Kind, after: After) {
    match after
    case Destroy => true
    case Assign(src) => SourceOk(s, kind, src)
    case Keep => false
  }

  predicate LocksOn(s: State, b: Bid, w: Hid) {
    w in s.handles && s.handles[w].kind.Weak? && s.handles[w].ref == Some(b) && b in s.blocks
  }

  ghost predicate PcOk(s: State, pc: Pc) {
    match pc
    case Idle => true
    case DropStrong(_, v, after) => v.kind.Shared? && v.ref.Some? && HandleOk(s, v) && AfterOk(s, v.kind, after)
    case DeleteObject(_, v, after) => v.kind.Shared? && v.ref.Some? && HandleOk(s, v) && AfterOk(s, v.kind, after)
    case DropWeak(_, v, after) =>
      v.ref.Some? && v.ref.value in s.blocks && (v.dest.Some? ==> v.dest == v.ref) && AfterOk(s, v.kind, after)
    case FreeRef(_, v, after) =>
      v.ref.Some? && v.ref.value in s.blocks && (v.dest.Some? ==> v.dest == v.ref) && AfterOk(s, v.kind, after)
    case Read(_, kind, src) => SourceOk(s, kind, src)
    case IncStrong(_, v, src) =>
      v.kind.Shared? && v.ref.Some? && HandleOk(s, v) && SourceOk(s, Shared, src) && s.handles[src].dest == v.dest
    case IncWeak(_, v, src) =>
      v.ref.Some? && HandleOk(s, v) && src in s.handles && s.handles[src].ref == v.ref
    case LockSpin(_, b, w) => LocksOn(s, b, w)
    case LockInc(_, b, w) => LocksOn(s, b, w)
    case LockUndo(_, b, w) => LocksOn(s, b, w) && Dead(s, b)
    case LockForget(_, b, w) => LocksOn(s, b, w) && Dead(s, b)
    case LockLeaveDead(_, b, w) => LocksOn(s, b, w)
    case LockLeave(_, b, w) => LocksOn(s, b, w)
    case LockBuild(_, b, w) => LocksOn(s, b, w)
  }

  predicate InCritical(pc: Pc, b: Bid) {
    (pc.LockInc? || pc.LockUndo? || pc.LockForget? || pc.LockLeaveDead? || pc.LockLeave?) && pc.b == b
  }

  /** The ledger of one block. */
  ghost predicate Ledger(s: State, b: Bid, k: RefData) {
    && k.strong == Strong(s, b) + Count(s.threads, TProbe(b))
    && k.weak == WeakUnits(s, b)
    && k.deletes + Count(s.threads, TDelete(b)) == One(Strong(s, b) == 0)
    && k.frees + Count(s.threads, TFree(b)) == One(WeakUnits(s, b) == 0)
  }

  ghost predicate Ledgers(s: State) {
    forall b {:trigger Ledger(s, b, s.blocks[b])} :: b in s.blocks ==> Ledger(s, b, s.blocks[b])
  }

  ghost predicate Shapes(s: State) {
    && (forall h :: h in s.handles ==> HandleOk(s, s.handles[h]))
    && (forall t :: t in s.threads ==> PcOk(s, s.threads[t]))
  }

  predicate Separate(s: State) {
    && (forall t :: t in s.threads && !s.threads[t].Idle? ==> s.threads[t].h !in s.handles)
    && (forall t, u :: t in s.threads && u in s.threads && t != u && !s.threads[t].Idle? && !s.threads[u].Idle?
          ==> s.threads[t].h != s.threads[u].h)
  }

  predicate Spins(s: State) {
    && (forall b, t :: b in s.blocks && t in s.threads && InCritical(s.threads[t], b) ==> s.blocks[b].spin == Some(t))
    && (forall b :: b in s.blocks && s.blocks[b].spin.Some? ==>
          s.blocks[b].spin.value in s.threads && InCritical(s.threads[s.blocks[b].spin.value], b))
  }

  ghost predicate Inv(s: State) {
    Shapes(s) && Separate(s) && Spins(s) && Ledgers(s)
  }
}
