/** What the scheduler of TimerService promises, over one tick and over whole runs. */
module TimerLaws {
  import opened TimerService

  // ---------------------------------------------------------------- one scan

  /** Where the loop stops, and what it changes besides the pending list: at most the times
      of the first timer that is not due. */
  lemma {:induction false} ScanStops(s: Sched, i: nat, now: int, env: nat -> Meanwhile)
    requires i <= |s.store|
    ensures var (s1, n) := Scan(s, i, now, env);
            && (forall j :: i <= j < n ==> now >= s.store[j].info.tmEnd)
            && (n < |s.store| ==> now < s.store[n].info.tmEnd)
            && s1.running == s.running
            && s1.store == if n < |s.store|
                           then s.store[n := Entry(s.store[n].key, Rewind(s.store[n].info, now))] else s.store
    decreases |s.store| - i
  {
    if i < |s.store| && now >= s.store[i].info.tmEnd {
      FireStore(s, s.store[i].info, env(i));
      ScanStops(Fire(s, s.store[i].info, env(i)), i + 1, now, env);
    }
  }

  // -------------------------------------------------------------- invariant

  predicate Before(a: Entry, b: Entry) {
    a.key < b.key || (a.key == b.key && a.info.timerId < b.info.timerId)
  }

  /** Key order, ties in the order of registration. */
  predicate Ordered(store: seq<Entry>) {
    forall i, j :: 0 <= i < j < |store| ==> Before(store[i], store[j])
  }

  /** The callback, the kind and the interval are those registered under the id. */
  predicate InfoOk(asked: seq<Registration>, e: Info) {
    && 1 <= e.timerId <= |asked|
    && e.tmEnd - e.tmStart == asked[e.timerId - 1].ms
    && e.callback == asked[e.timerId - 1].callback
    && e.isLoop == asked[e.timerId - 1].isLoop
  }

  /** The place in the multimap is the deadline as registered; the deadline is no later. */
  predicate EntryOk(asked: seq<Registration>, x: Entry) {
    && InfoOk(asked, x.info)
    && x.key == asked[x.info.timerId - 1].clock + asked[x.info.timerId - 1].ms
    && x.info.tmEnd <= x.key
  }

  predicate Good(s: Sched) {
    && Ordered(s.store)
    && (forall i :: 0 <= i < |s.store| ==> EntryOk(s.asked, s.store[i]))
    && (forall i :: 0 <= i < |s.pending| ==> InfoOk(s.asked, s.pending[i]) && s.pending[i].tmStart == s.asked[s.pending[i].timerId - 1].clock)
    && (forall i, j :: 0 <= i < j < |s.pending| ==> s.pending[i].timerId < s.pending[j].timerId)
    && (forall i, j :: 0 <= i < |s.store| && 0 <= j < |s.pending| ==> s.store[i].info.timerId < s.pending[j].timerId)
  }

  lemma KeepRegister(s: Sched, r: Registration)
    requires Good(s)
    ensures Good(Register(s, r))
  {
  }

  lemma {:induction false} KeepRegisterAll(s: Sched, regs: seq<Registration>)
    requires Good(s)
    ensures Good(RegisterAll(s, regs))
    decreases |regs|
  {
    if regs != [] {
      KeepRegister(s, regs[0]);
      KeepRegisterAll(Register(s, regs[0]), regs[1..]);
    }
  }

  lemma KeepFire(s: Sched, e: Info, m: Meanwhile)
    requires Good(s)
    ensures Good(Fire(s, e, m))
  {
    KeepRegisterAll(s, m.regs);
  }

  /** checkTimeout keeps the interval and never moves a deadline past the multimap key. */
  lemma KeepRewind(s: Sched, i: nat, now: int)
    requires Good(s) && i < |s.store|
    ensures Good(s.(store := s.store[i := Entry(s.store[i].key, Rewind(s.store[i].info, now))]))
  {
  }

  lemma {:induction false} KeepScan(s: Sched, i: nat, now: int, env: nat -> Meanwhile)
    requires Good(s) && i <= |s.store|
    ensures Good(Scan(s, i, now, env).0)
    decreases |s.store| - i
  {
    if i < |s.store| {
      if now >= s.store[i].info.tmEnd {
        KeepFire(s, s.store[i].info, env(i));
        FireStore(s, s.store[i].info, env(i));
        KeepScan(Fire(s, s.store[i].info, env(i)), i + 1, now, env);
      } else {
        KeepRewind(s, i, now);
      }
    }
  }

  lemma InsertOrdered(store: seq<Entry>, e: Entry)
    requires Ordered(store) && forall i :: 0 <= i < |store| ==> store[i].info.timerId < e.info.timerId
    ensures Ordered(Insert(store, e))
    ensures forall i :: 0 <= i < |Insert(store, e)| ==> Insert(store, e)[i] in store || Insert(store, e)[i] == e
  {
    var u := UpperBound(store, e.key);
    var r := Insert(store, e);
    forall i, j | 0 <= i < j < |r| ensures Before(r[i], r[j]) {
      var i' := if i < u then i else i - 1;
      var j' := if j < u then j else j - 1;
      if i != u && j != u {
        assert r[i] == store[i'] && r[j] == store[j'];
      }
    }
  }

  lemma {:induction false} KeepInsertAll(s: Sched)
    requires Good(s)
    ensures Good(AddNew(s))
    decreases |s.pending|
  {
    if s.pending != [] {
      var e := Entry(s.pending[0].tmEnd, s.pending[0]);
      var s1 := s.(store := Insert(s.store, e), pending := s.pending[1..]);
      InsertOrdered(s.store, e);
      assert Good(s1) by {
        forall i | 0 <= i < |s1.store|
          ensures EntryOk(s.asked, s1.store[i])
          ensures s1.store[i].info.timerId <= e.info.timerId
        {
          assert s1.store[i] in s.store || s1.store[i] == e;
        }
      }
      KeepInsertAll(s1);
    }
  }

  lemma KeepProcess(s: Sched, now: int, env: nat -> Meanwhile)
    requires Good(s)
    ensures Good(Process(s, now, env))
  {
    KeepScan(s, 0, now, env);
  }

  // ------------------------------------------------------------ order of firing

  /** Keys tell the deadlines, as they do until a pass reads a clock from before a timer's start. */
  predicate Synced(store: seq<Entry>) {
    forall i :: 0 <= i < |store| ==> store[i].key == store[i].info.tmEnd
  }

  /** A pass fires exactly the stored timers that are due, in deadline order with ties in
      registration order. */
  predicate Exact(s: Sched, now: int, env: nat -> Meanwhile) {
    var fired := Fired(s, now, env);
    && (forall i :: 0 <= i < |s.store| ==> (s.store[i].info.tmEnd <= now <==> i < |fired|))
    && |fired| <= |s.store| && fired == Infos(s.store)[..|fired|]
    && (forall i, j :: 0 <= i < j < |fired| ==>
          fired[i].tmEnd < fired[j].tmEnd || (fired[i].tmEnd == fired[j].tmEnd && fired[i].timerId < fired[j].timerId))
  }

  /** While keys tell the deadlines, a pass fires exactly the due timers, earliest deadline
      first, ties in the order of registration. */
  lemma TickFiresExactlyTheDue(s: Sched, now: int, env: nat -> Meanwhile)
    requires Good(s) && Synced(s.store)
    ensures Exact(s, now, env)
  {
    var n := Scan(s, 0, now, env).1;
    ScanStops(s, 0, now, env);
    assert Fired(s, now, env) == Infos(s.store)[..n];
    DueIsPrefix(s.store, n, now);
    PrefixInOrder(s.store, n);
  }

  lemma DueIsPrefix(store: seq<Entry>, n: nat, now: int)
    requires Ordered(store) && Synced(store) && n <= |store|
    requires (forall j :: 0 <= j < n ==> now >= store[j].info.tmEnd) && (n < |store| ==> now < store[n].info.tmEnd)
    ensures forall i :: 0 <= i < |store| ==> (store[i].info.tmEnd <= now <==> i < n)
  {
    forall i | n <= i < |store| ensures now < store[i].info.tmEnd {
      if i > n {
        KeysInOrder(store, n, i);
      }
    }
  }

  lemma PrefixInOrder(store: seq<Entry>, n: nat)
    requires Ordered(store) && Synced(store) && n <= |store|
    ensures forall i, j :: 0 <= i < j < n ==>
              store[i].info.tmEnd < store[j].info.tmEnd
              || (store[i].info.tmEnd == store[j].info.tmEnd && store[i].info.timerId < store[j].info.timerId)
  {
    forall i, j | 0 <= i < j < n
      ensures store[i].info.tmEnd < store[j].info.tmEnd
           || (store[i].info.tmEnd == store[j].info.tmEnd && store[i].info.timerId < store[j].info.timerId)
    {
      assert Before(store[i], store[j]);
    }
  }

  /** Without the help of the keys: what fires is due, and the pass stops at the first timer
      that is not. */
  lemma OnlyDueFires(s: Sched, now: int, env: nat -> Meanwhile)
    ensures forall i :: 0 <= i < |Fired(s, now, env)| ==> Fired(s, now, env)[i].tmEnd <= now
    ensures |Fired(s, now, env)| < |s.store| ==> now < s.store[|Fired(s, now, env)|].info.tmEnd
  {
    ScanStops(s, 0, now, env);
  }

  /** The pass leaves keys and deadlines in step exactly when its clock is not behind the
      start of the timer it stops at. */
  lemma StaysSyncedIff(s: Sched, now: int, env: nat -> Meanwhile)
    requires Synced(s.store)
    ensures var n := |Fired(s, now, env)|;
            Synced(Process(s, now, env).store) <==> n == |s.store| || s.store[n].info.tmStart <= now
  {
    ScanStops(s, 0, now, env);
    var n := Scan(s, 0, now, env).1;
    var rest := Process(s, now, env).store;
    if n < |s.store| {
      assert rest[0] == Entry(s.store[n].key, Rewind(s.store[n].info, now));
      assert forall i :: 1 <= i < |rest| ==> rest[i] == s.store[n + i];
    }
  }

  // ------------------------------------------------------------------ conservation

  function Ids(infos: seq<Info>): (r: seq<int>)
    ensures |r| == |infos| && forall i :: 0 <= i < |r| ==> r[i] == infos[i].timerId
  {
    seq(|infos|, i requires 0 <= i < |infos| => infos[i].timerId)
  }

  function StoreIds(store: seq<Entry>): multiset<int> {
    multiset(Ids(Infos(store)))
  }

  /** The timers that will still fire. */
  function LiveIds(s: Sched): multiset<int> {
    StoreIds(s.store) + multiset(Ids(s.pending))
  }

  lemma StoreIdsSplit(store: seq<Entry>, n: nat)
    requires n <= |store|
    ensures StoreIds(store) == StoreIds(store[..n]) + StoreIds(store[n..])
  {
    assert Ids(Infos(store)) == Ids(Infos(store[..n])) + Ids(Infos(store[n..]));
  }

  lemma InfosConcat(a: seq<Entry>, b: seq<Entry>)
    ensures Infos(a + b) == Infos(a) + Infos(b)
  {
  }

  lemma InsertInfos(store: seq<Entry>, e: Entry)
    ensures var u := UpperBound(store, e.key);
            Infos(Insert(store, e)) == Infos(store)[..u] + ([e.info] + Infos(store)[u..])
  {
    var u := UpperBound(store, e.key);
    InfosConcat(store[..u] + [e], store[u..]);
    InfosConcat(store[..u], [e]);
    InfosSplit(store, u);
    assert Infos([e]) == [e.info];
    InfosAssociative(Infos(store)[..u], [e.info], Infos(store)[u..]);
  }

  lemma InfosAssociative(a: seq<Info>, b: seq<Info>, c: seq<Info>)
    ensures (a + b) + c == a + (b + c)
  {
  }

  lemma IdsMiddle(a: seq<Info>, e: Info, b: seq<Info>)
    ensures multiset(Ids(a + ([e] + b))) == multiset(Ids(a + b)) + multiset{e.timerId}
  {
    IdsConcat(a, [e] + b);
    IdsConcat([e], b);
    IdsConcat(a, b);
    assert Ids([e]) == [e.timerId];
  }

  lemma StoreIdsInsert(store: seq<Entry>, e: Entry)
    ensures StoreIds(Insert(store, e)) == StoreIds(store) + multiset{e.info.timerId}
  {
    var u := UpperBound(store, e.key);
    InsertInfos(store, e);
    assert Infos(store)[..u] + Infos(store)[u..] == Infos(store);
    IdsMiddle(Infos(store)[..u], e.info, Infos(store)[u..]);
  }

  lemma Chain(x: multiset<int>, y: multiset<int>, z: multiset<int>, p: multiset<int>, q: multiset<int>)
    requires y == x + p && z == y + q
    ensures z == x + (p + q)
  {
  }

  /** The ids handed out while the counter went from a to b. */
  function Issued(a: nat, b: nat): multiset<int>
    requires a <= b
    decreases b - a
  {
    if a == b then multiset{} else multiset{a + 1} + Issued(a + 1, b)
  }

  lemma {:induction false} IssuedSplit(a: nat, b: nat, c: nat)
    requires a <= b <= c
    ensures Issued(a, c) == Issued(a, b) + Issued(b, c)
    decreases b - a
  {
    if a < b {
      IssuedSplit(a + 1, b, c);
    }
  }

  lemma RegisterIds(s: Sched, r: Registration)
    ensures |s.asked| <= |Register(s, r).asked|
    ensures LiveIds(Register(s, r)) == LiveIds(s) + Issued(|s.asked|, |Register(s, r).asked|)
  {
    if s.running {
      var s1 := Register(s, r);
      assert Ids(s1.pending) == Ids(s.pending) + [|s.asked| + 1];
      assert Issued(|s.asked|, |s.asked| + 1) == multiset{|s.asked| + 1};
    }
  }

  lemma {:induction false} RegisterAllIds(s: Sched, regs: seq<Registration>)
    ensures |s.asked| <= |RegisterAll(s, regs).asked|
    ensures LiveIds(RegisterAll(s, regs)) == LiveIds(s) + Issued(|s.asked|, |RegisterAll(s, regs).asked|)
    decreases |regs|
  {
    if regs != [] {
      var s1 := Register(s, regs[0]);
      RegisterIds(s, regs[0]);
      RegisterAllIds(s1, regs[1..]);
      ThenIds(s, s1, RegisterAll(s, regs));
    }
  }

  /** Registrations one after the other, and their ids. */
  lemma ThenIds(s: Sched, s1: Sched, s2: Sched)
    requires |s.asked| <= |s1.asked| <= |s2.asked|
    requires LiveIds(s1) == LiveIds(s) + Issued(|s.asked|, |s1.asked|)
    requires LiveIds(s2) == LiveIds(s1) + Issued(|s1.asked|, |s2.asked|)
    ensures LiveIds(s2) == LiveIds(s) + Issued(|s.asked|, |s2.asked|)
  {
    IssuedSplit(|s.asked|, |s1.asked|, |s2.asked|);
    Chain(LiveIds(s), LiveIds(s1), LiveIds(s2), Issued(|s.asked|, |s1.asked|), Issued(|s1.asked|, |s2.asked|));
  }

  lemma FireIds(s: Sched, e: Info, m: Meanwhile)
    ensures |s.asked| <= |Fire(s, e, m).asked|
    ensures LiveIds(Fire(s, e, m)) == LiveIds(s) + Issued(|s.asked|, |Fire(s, e, m).asked|)
  {
    var s1 := RegisterAll(s, m.regs);
    RegisterAllIds(s, m.regs);
    if e.isLoop {
      RegisterIds(s1, Rearm(e, m));
      ThenIds(s, s1, Fire(s, e, m));
    }
  }

  lemma {:induction false} ScanIds(s: Sched, i: nat, now: int, env: nat -> Meanwhile)
    requires i <= |s.store|
    ensures |s.asked| <= |Scan(s, i, now, env).0.asked|
    ensures LiveIds(Scan(s, i, now, env).0) == LiveIds(s) + Issued(|s.asked|, |Scan(s, i, now, env).0.asked|)
    decreases |s.store| - i
  {
    if i < |s.store| {
      if now >= s.store[i].info.tmEnd {
        var s1 := Fire(s, s.store[i].info, env(i));
        FireStore(s, s.store[i].info, env(i));
        FireIds(s, s.store[i].info, env(i));
        ScanIds(s1, i + 1, now, env);
        ThenIds(s, s1, Scan(s, i, now, env).0);
      } else {
        assert Ids(Infos(Scan(s, i, now, env).0.store)) == Ids(Infos(s.store));
      }
    }
  }

  /** A tick neither loses nor repeats a timer: the ids alive before it and the ids issued
      during it are the ids alive after it and the ids it fired. */
  lemma ProcessIds(s: Sched, now: int, env: nat -> Meanwhile)
    ensures |s.asked| <= |Process(s, now, env).asked|
    ensures LiveIds(Process(s, now, env)) + multiset(Ids(Fired(s, now, env)))
         == LiveIds(s) + Issued(|s.asked|, |Process(s, now, env).asked|)
  {
    var (s1, n) := Scan(s, 0, now, env);
    ScanIds(s, 0, now, env);
    ScanStops(s, 0, now, env);
    StoreIdsSplit(s1.store, n);
    assert Infos(s1.store[..n]) == Fired(s, now, env);
  }

  lemma {:induction false} AddNewIds(s: Sched)
    ensures LiveIds(AddNew(s)) == LiveIds(s)
    decreases |s.pending|
  {
    if s.pending != [] {
      var e := Entry(s.pending[0].tmEnd, s.pending[0]);
      AddNewIds(s.(store := Insert(s.store, e), pending := s.pending[1..]));
      StoreIdsInsert(s.store, e);
      HeadId(s.pending);
    }
  }

  lemma HeadId(infos: seq<Info>)
    requires infos != []
    ensures multiset(Ids(infos)) == multiset{infos[0].timerId} + multiset(Ids(infos[1..]))
  {
    assert Ids(infos) == [infos[0].timerId] + Ids(infos[1..]);
  }

  // ------------------------------------------------------------------ loop timers

  /** What a client asked a loop timer for: a callback and an interval. */
  type Loop = (Callback, int)

  /** The loop timer an element stands for, if any. */
  function LoopOf(e: Info): multiset<Loop> {
    if e.isLoop then multiset{(e.callback, e.tmEnd - e.tmStart)} else multiset{}
  }

  function LoopReg(r: Registration): multiset<Loop> {
    if r.isLoop then multiset{(r.callback, r.ms)} else multiset{}
  }

  /** The loop timers in a list, one for each. */
  function Loops(infos: seq<Info>): multiset<Loop>
    decreases |infos|
  {
    if infos == [] then multiset{}
    else LoopOf(infos[0]) + Loops(infos[1..])
  }

  lemma {:induction false} LoopsSplit(infos: seq<Info>, n: nat)
    requires n <= |infos|
    ensures Loops(infos) == Loops(infos[..n]) + Loops(infos[n..])
    decreases n
  {
    if n == 0 {
      assert infos[0..] == infos;
    } else {
      LoopsSplit(infos[1..], n - 1);
      assert infos[..n][1..] == infos[1..][..n - 1];
      assert infos[1..][n - 1..] == infos[n..];
    }
  }

  lemma LoopsConcat(a: seq<Info>, b: seq<Info>)
    ensures Loops(a + b) == Loops(a) + Loops(b)
  {
    LoopsSplit(a + b, |a|);
    assert (a + b)[..|a|] == a && (a + b)[|a|..] == b;
  }

  /** Only kind, callback and interval matter. */
  lemma {:induction false} LoopsSame(a: seq<Info>, b: seq<Info>)
    requires |a| == |b|
    requires forall i :: 0 <= i < |a| ==> LoopOf(a[i]) == LoopOf(b[i])
    ensures Loops(a) == Loops(b)
    decreases |a|
  {
    if a != [] {
      LoopsSame(a[1..], b[1..]);
    }
  }

  function LiveLoops(s: Sched): multiset<Loop> {
    Loops(Infos(s.store)) + Loops(s.pending)
  }

  function LoopRegs(regs: seq<Registration>): multiset<Loop>
    decreases |regs|
  {
    if regs == [] then multiset{}
    else LoopReg(regs[0]) + LoopRegs(regs[1..])
  }

  /** The loop timers registered by others while callbacks i, ..., n-1 of a pass run. */
  function LoopsMeanwhile(env: nat -> Meanwhile, i: nat, n: nat): multiset<Loop>
    requires i <= n
    decreases n - i
  {
    if i == n then multiset{} else LoopRegs(env(i).regs) + LoopsMeanwhile(env, i + 1, n)
  }

  lemma LoopsOfOne(e: Info)
    ensures Loops([e]) == LoopOf(e)
  {
    assert [e][1..] == [];
    assert Loops([]) == multiset{};
  }

  lemma LoopsAdded(a: multiset<Loop>, b: multiset<Loop>, c: multiset<Loop>)
    ensures a + (b + c) == (a + b) + c
  {
  }

  lemma PendingLoops(stored: multiset<Loop>, pending: seq<Info>, e: Info)
    ensures stored + Loops(pending + [e]) == (stored + Loops(pending)) + LoopOf(e)
  {
    LoopsConcat(pending, [e]);
    LoopsOfOne(e);
    LoopsAdded(stored, Loops(pending), LoopOf(e));
  }

  lemma RegisterLoops(s: Sched, r: Registration)
    requires s.running
    ensures LiveLoops(Register(s, r)) == LiveLoops(s) + LoopReg(r)
  {
    var e := Info(r.clock, r.clock + r.ms, r.callback, r.isLoop, |s.asked| + 1);
    assert Register(s, r).store == s.store && Register(s, r).pending == s.pending + [e];
    PendingLoops(Loops(Infos(s.store)), s.pending, e);
  }

  lemma {:induction false} RegisterAllLoops(s: Sched, regs: seq<Registration>)
    requires s.running
    ensures LiveLoops(RegisterAll(s, regs)) == LiveLoops(s) + LoopRegs(regs)
    decreases |regs|
  {
    if regs != [] {
      RegisterLoops(s, regs[0]);
      RegisterAllLoops(Register(s, regs[0]), regs[1..]);
    }
  }

  /** A pass that stops at once changes times only. */
  lemma StopLoops(s: Sched, i: nat, now: int, env: nat -> Meanwhile)
    requires i <= |s.store| && (i == |s.store| || now < s.store[i].info.tmEnd)
    ensures Scan(s, i, now, env).1 == i && LiveLoops(Scan(s, i, now, env).0) == LiveLoops(s)
  {
    LoopsSame(Infos(Scan(s, i, now, env).0.store), Infos(s.store));
  }

  lemma {:induction false} ScanLoops(s: Sched, i: nat, now: int, env: nat -> Meanwhile)
    requires s.running && i <= |s.store|
    ensures var (s1, n) := Scan(s, i, now, env);
            LiveLoops(s1) == LiveLoops(s) + LoopsMeanwhile(env, i, n) + Loops(Infos(s.store)[i..n])
    decreases |s.store| - i
  {
    if i < |s.store| && now >= s.store[i].info.tmEnd {
      ScanLoopsStep(s, i, now, env);
    } else {
      StopLoops(s, i, now, env);
      assert Infos(s.store)[i..i] == [];
    }
  }

  lemma {:induction false} ScanLoopsStep(s: Sched, i: nat, now: int, env: nat -> Meanwhile)
    requires s.running && i < |s.store| && now >= s.store[i].info.tmEnd
    ensures var (s1, n) := Scan(s, i, now, env);
            LiveLoops(s1) == LiveLoops(s) + LoopsMeanwhile(env, i, n) + Loops(Infos(s.store)[i..n])
    decreases |s.store| - i, 0
  {
    var e := s.store[i].info;
    var s1 := Fire(s, e, env(i));
    var (s2, n) := Scan(s, i, now, env);
    FireStore(s, e, env(i));
    FireLoops(s, e, env(i));
    ScanLoops(s1, i + 1, now, env);
    var infos := Infos(s.store);
    assert infos[i..n][1..] == infos[i + 1..n];
    Regroup(LiveLoops(s), LoopRegs(env(i).regs), LoopOf(e),
            LoopsMeanwhile(env, i + 1, n), Loops(infos[i + 1..n]));
  }

  lemma Regroup(x: multiset<Loop>, a: multiset<Loop>, b: multiset<Loop>, c: multiset<Loop>, d: multiset<Loop>)
    ensures ((x + a) + b) + c + d == x + (a + c) + (b + d)
  {
  }

  lemma FireLoops(s: Sched, e: Info, m: Meanwhile)
    requires s.running
    ensures LiveLoops(Fire(s, e, m)) == (LiveLoops(s) + LoopRegs(m.regs)) + LoopOf(e)
  {
    var s1 := RegisterAll(s, m.regs);
    RegisterAllStore(s, m.regs);
    RegisterAllLoops(s, m.regs);
    if e.isLoop {
      assert LoopReg(Rearm(e, m)) == LoopOf(e);
      RegisterLoops(s1, Rearm(e, m));
    }
  }

  lemma Cancel(f: multiset<Loop>, r: multiset<Loop>, p: multiset<Loop>, x: multiset<Loop>, m: multiset<Loop>)
    requires (f + r) + p == x + m + f
    ensures r + p == x + m
  {
    assert r + p == ((f + r) + p) - f;
    assert x + m == (x + m + f) - f;
  }

  lemma InfosSplit(store: seq<Entry>, n: nat)
    requires n <= |store|
    ensures Infos(store[..n]) == Infos(store)[..n] && Infos(store[n..]) == Infos(store)[n..]
  {
  }

  lemma LoopsAfterErase(s1: Sched, n: nat)
    requires n <= |s1.store|
    ensures Loops(Infos(s1.store)) == Loops(Infos(s1.store[..n])) + Loops(Infos(s1.store[n..]))
  {
    InfosSplit(s1.store, n);
    LoopsSplit(Infos(s1.store), n);
  }

  /** What is erased is what fired. */
  lemma SameFired(s: Sched, now: int, env: nat -> Meanwhile)
    ensures var (s1, n) := Scan(s, 0, now, env);
            Infos(s1.store[..n]) == Infos(s.store)[0..n] == Fired(s, now, env)
  {
    ScanStops(s, 0, now, env);
  }

  /** While the service runs, a tick leaves every loop timer with exactly as many live entries
      as before, plus those newly asked for: each one fired is put back once. */
  lemma LoopTimersStayAlive(s: Sched, now: int, env: nat -> Meanwhile)
    requires s.running
    ensures LiveLoops(Process(s, now, env)) == LiveLoops(s) + LoopsMeanwhile(env, 0, |Fired(s, now, env)|)
  {
    var (s1, n) := Scan(s, 0, now, env);
    ScanLoops(s, 0, now, env);
    SameFired(s, now, env);
    LoopsAfterErase(s1, n);
    Cancel(Loops(Infos(s1.store[..n])), Loops(Infos(s1.store[n..])), Loops(s1.pending), LiveLoops(s), LoopsMeanwhile(env, 0, n));
  }

  lemma {:induction false} AddNewLoops(s: Sched)
    ensures LiveLoops(AddNew(s)) == LiveLoops(s)
    decreases |s.pending|
  {
    if s.pending != [] {
      var e := Entry(s.pending[0].tmEnd, s.pending[0]);
      AddNewLoops(s.(store := Insert(s.store, e), pending := s.pending[1..]));
      InsertLoops(s.store, e);
    }
  }

  lemma InsertLoops(store: seq<Entry>, e: Entry)
    ensures Loops(Infos(Insert(store, e))) == Loops(Infos(store)) + LoopOf(e.info)
  {
    var u := UpperBound(store, e.key);
    InsertInfos(store, e);
    assert Infos(store)[..u] + Infos(store)[u..] == Infos(store);
    LoopsMiddle(Infos(store)[..u], e.info, Infos(store)[u..]);
  }

  lemma LoopsMiddle(a: seq<Info>, e: Info, b: seq<Info>)
    ensures Loops(a + ([e] + b)) == Loops(a + b) + LoopOf(e)
  {
    LoopsConcat(a, [e] + b);
    LoopsConcat([e], b);
    LoopsConcat(a, b);
    LoopsOfOne(e);
  }

  // --------------------------------------------------- what a pass registers

  /** Registrations as they wait, under the ids that follow `last`. */
  function Waiting(regs: seq<Registration>, last: nat): (r: seq<Info>)
    ensures |r| == |regs|
    ensures forall k :: 0 <= k < |r| ==>
              r[k] == Info(regs[k].clock, regs[k].clock + regs[k].ms, regs[k].callback, regs[k].isLoop, last + k + 1)
  {
    seq(|regs|, k requires 0 <= k < |regs| =>
      Info(regs[k].clock, regs[k].clock + regs[k].ms, regs[k].callback, regs[k].isLoop, last + k + 1))
  }

  /** From s to s1 exactly these registrations were made, in this order. */
  predicate Grown(s: Sched, s1: Sched, regs: seq<Registration>) {
    s1.asked == s.asked + regs && s1.pending == s.pending + Waiting(regs, |s.asked|) && s1.running == s.running
  }

  lemma GrownTwice(s: Sched, s1: Sched, s2: Sched, a: seq<Registration>, b: seq<Registration>)
    requires Grown(s, s1, a) && Grown(s1, s2, b)
    ensures Grown(s, s2, a + b)
  {
    assert Waiting(a + b, |s.asked|) == Waiting(a, |s.asked|) + Waiting(b, |s1.asked|);
  }

  lemma RegisterGrows(s: Sched, r: Registration)
    requires s.running
    ensures Grown(s, Register(s, r), [r])
  {
  }

  lemma {:induction false} RegisterAllGrows(s: Sched, regs: seq<Registration>)
    requires s.running
    ensures Grown(s, RegisterAll(s, regs), regs)
    decreases |regs|
  {
    if regs != [] {
      RegisterGrows(s, regs[0]);
      RegisterAllGrows(Register(s, regs[0]), regs[1..]);
      GrownTwice(s, Register(s, regs[0]), RegisterAll(s, regs), [regs[0]], regs[1..]);
      assert [regs[0]] + regs[1..] == regs;
    }
  }

  /** A loop timer that fired asks for its interval again, from the clock after its callback. */
  function Again(e: Info, clock: int): seq<Registration> {
    if e.isLoop then [Registration(e.tmEnd - e.tmStart, e.callback, true, clock)] else []
  }

  lemma FireGrows(s: Sched, e: Info, m: Meanwhile)
    requires s.running
    ensures Grown(s, Fire(s, e, m), m.regs + Again(e, m.clock))
  {
    RegisterAllGrows(s, m.regs);
    var s1 := RegisterAll(s, m.regs);
    if e.isLoop {
      RegisterGrows(s1, Again(e, m.clock)[0]);
      GrownTwice(s, s1, Fire(s, e, m), m.regs, Again(e, m.clock));
    } else {
      assert m.regs + [] == m.regs;
    }
  }

  /** The registrations while the timers from position i to n fire. */
  function FromPass(store: seq<Entry>, env: nat -> Meanwhile, i: nat, n: nat): seq<Registration>
    requires n <= |store|
    decreases n - i
  {
    if i >= n then [] else env(i).regs + Again(store[i].info, env(i).clock) + FromPass(store, env, i + 1, n)
  }

  lemma {:induction false} ScanGrows(s: Sched, i: nat, now: int, env: nat -> Meanwhile)
    requires s.running && i <= |s.store|
    ensures Grown(s, Scan(s, i, now, env).0, FromPass(s.store, env, i, Scan(s, i, now, env).1))
    decreases |s.store| - i
  {
    if i < |s.store| && now >= s.store[i].info.tmEnd {
      var s1 := Fire(s, s.store[i].info, env(i));
      FireStore(s, s.store[i].info, env(i));
      FireGrows(s, s.store[i].info, env(i));
      ScanGrows(s1, i + 1, now, env);
      GrownTwice(s, s1, Scan(s, i, now, env).0, env(i).regs + Again(s.store[i].info, env(i).clock),
                 FromPass(s.store, env, i + 1, Scan(s, i, now, env).1));
    }
  }

  /** A pass registers what its callbacks ask for and each loop timer again, in this order, and
      nothing else. */
  lemma PassRegisters(s: Sched, now: int, env: nat -> Meanwhile)
    requires s.running
    ensures Grown(s, Process(s, now, env), FromPass(s.store, env, 0, |Fired(s, now, env)|))
  {
    ScanGrows(s, 0, now, env);
  }

  lemma {:induction false} AgainIsAsked(store: seq<Entry>, env: nat -> Meanwhile, i: nat, n: nat, k: nat)
    requires i <= k < n <= |store| && store[k].info.isLoop
    ensures Again(store[k].info, env(k).clock)[0] in FromPass(store, env, i, n)
    decreases n - i
  {
    if i < k {
      AgainIsAsked(store, env, i + 1, n, k);
    }
  }

  /** Each loop timer a pass fires waits again afterwards: with its callback and its interval,
      counted from the clock when its callback was done. */
  lemma LoopRestarts(s: Sched, now: int, env: nat -> Meanwhile, k: nat)
    requires s.running && k < |Fired(s, now, env)| && Fired(s, now, env)[k].isLoop
    ensures var e := Fired(s, now, env)[k];
            var after := Process(s, now, env).pending;
            exists p :: |s.pending| <= p < |after| && after[p].isLoop && after[p].callback == e.callback
                        && after[p].tmStart == env(k).clock && after[p].tmEnd == env(k).clock + (e.tmEnd - e.tmStart)
  {
    var n := |Fired(s, now, env)|;
    var regs := FromPass(s.store, env, 0, n);
    PassRegisters(s, now, env);
    AgainIsAsked(s.store, env, 0, n, k);
    var q :| 0 <= q < |regs| && regs[q] == Again(s.store[k].info, env(k).clock)[0];
    assert Process(s, now, env).pending[|s.pending| + q] == Waiting(regs, |s.asked|)[q];
  }

  // ------------------------------------------------------------------ whole runs

  /** A registration that is pushed when the clock stands at `at` (and read it then or before),
      or one turn of run(): the clock reading, the registrations after it and before the
      insertion, and the pass; `till` is where the clock stands when the turn ends. */
  datatype Event =
    | Added(r: Registration, at: int)
    | Ticked(now: int, between: seq<Registration>, env: nat -> Meanwhile, till: int)

  const START := Sched(true, [], [], [])

  function After(s: Sched, ev: Event): Sched {
    match ev
    case Added(r, _) => Register(s, r)
    case Ticked(now, between, env, _) => Process(Inserted(s, between), now, env)
  }

  function FiredBy(s: Sched, ev: Event): seq<Info> {
    match ev
    case Added(_, _) => []
    case Ticked(now, between, env, _) => Fired(Inserted(s, between), now, env)
  }

  /** The state after a run and everything it fired, in order. */
  function Play(s: Sched, run: seq<Event>): (Sched, seq<Info>)
    decreases |run|
  {
    if run == [] then (s, [])
    else
      var (s1, log) := Play(After(s, run[0]), run[1..]);
      (s1, FiredBy(s, run[0]) + log)
  }

  lemma InsertedKeeps(s: Sched, between: seq<Registration>)
    requires Good(s)
    ensures Good(Inserted(s, between)) && |s.asked| <= |Inserted(s, between).asked|
    ensures LiveIds(Inserted(s, between)) == LiveIds(s) + Issued(|s.asked|, |Inserted(s, between).asked|)
  {
    KeepRegisterAll(s, between);
    KeepInsertAll(RegisterAll(s, between));
    RegisterAllIds(s, between);
    AddNewIds(RegisterAll(s, between));
  }

  lemma TickKeeps(s: Sched, now: int, between: seq<Registration>, env: nat -> Meanwhile)
    requires Good(s)
    ensures var s' := Process(Inserted(s, between), now, env);
            && Good(s') && |s.asked| <= |s'.asked|
            && LiveIds(s') + multiset(Ids(Fired(Inserted(s, between), now, env))) == LiveIds(s) + Issued(|s.asked|, |s'.asked|)
  {
    var a := Inserted(s, between);
    var s' := Process(a, now, env);
    InsertedKeeps(s, between);
    KeepProcess(a, now, env);
    ProcessIds(a, now, env);
    IssuedSplit(|s.asked|, |a.asked|, |s'.asked|);
    Chain(LiveIds(s), LiveIds(a), LiveIds(a) + Issued(|a.asked|, |s'.asked|), Issued(|s.asked|, |a.asked|), Issued(|a.asked|, |s'.asked|));
  }

  lemma AfterKeeps(s: Sched, ev: Event)
    requires Good(s)
    ensures Good(After(s, ev)) && |s.asked| <= |After(s, ev).asked|
    ensures LiveIds(After(s, ev)) + multiset(Ids(FiredBy(s, ev))) == LiveIds(s) + Issued(|s.asked|, |After(s, ev).asked|)
  {
    match ev {
      case Added(r, _) =>
        KeepRegister(s, r);
        RegisterIds(s, r);
      case Ticked(now, between, env, _) => TickKeeps(s, now, between, env);
    }
  }

  lemma Telescope(l0: multiset<int>, l1: multiset<int>, l2: multiset<int>, f1: multiset<int>, f2: multiset<int>,
                  i1: multiset<int>, i2: multiset<int>)
    requires l1 + f1 == l0 + i1 && l2 + f2 == l1 + i2
    ensures l2 + (f1 + f2) == l0 + (i1 + i2)
  {
    assert l2 + (f1 + f2) == (l2 + f2) + f1;
    assert (l1 + i2) + f1 == (l1 + f1) + i2;
  }

  lemma IdsConcat(a: seq<Info>, b: seq<Info>)
    ensures multiset(Ids(a + b)) == multiset(Ids(a)) + multiset(Ids(b))
  {
    assert Ids(a + b) == Ids(a) + Ids(b);
  }

  lemma {:induction false} RunKeepsGood(s: Sched, run: seq<Event>)
    requires Good(s)
    ensures Good(Play(s, run).0) && |s.asked| <= |Play(s, run).0.asked|
    decreases |run|
  {
    if run != [] {
      AfterKeeps(s, run[0]);
      RunKeepsGood(After(s, run[0]), run[1..]);
    }
  }

  lemma {:induction false} RunConserves(s: Sched, run: seq<Event>)
    requires Good(s)
    ensures |s.asked| <= |Play(s, run).0.asked|
    ensures LiveIds(Play(s, run).0) + multiset(Ids(Play(s, run).1)) == LiveIds(s) + Issued(|s.asked|, |Play(s, run).0.asked|)
    decreases |run|
  {
    RunKeepsGood(s, run);
    if run != [] {
      AfterKeeps(s, run[0]);
      RunKeepsGood(After(s, run[0]), run[1..]);
      RunConserves(After(s, run[0]), run[1..]);
      RunStep(s, After(s, run[0]), Play(After(s, run[0]), run[1..]).0, FiredBy(s, run[0]), Play(After(s, run[0]), run[1..]).1);
    }
  }

  lemma RunStep(s: Sched, s1: Sched, s2: Sched, fired: seq<Info>, rest: seq<Info>)
    requires |s.asked| <= |s1.asked| <= |s2.asked|
    requires LiveIds(s1) + multiset(Ids(fired)) == LiveIds(s) + Issued(|s.asked|, |s1.asked|)
    requires LiveIds(s2) + multiset(Ids(rest)) == LiveIds(s1) + Issued(|s1.asked|, |s2.asked|)
    ensures LiveIds(s2) + multiset(Ids(fired + rest)) == LiveIds(s) + Issued(|s.asked|, |s2.asked|)
  {
    IssuedSplit(|s.asked|, |s1.asked|, |s2.asked|);
    Telescope(LiveIds(s), LiveIds(s1), LiveIds(s2), multiset(Ids(fired)), multiset(Ids(rest)),
              Issued(|s.asked|, |s1.asked|), Issued(|s1.asked|, |s2.asked|));
    IdsConcat(fired, rest);
  }

  lemma {:induction false} IssuedOnce(a: nat, b: nat, x: int)
    requires a <= b
    ensures Issued(a, b)[x] == if a < x <= b then 1 else 0
    decreases b - a
  {
    if a < b {
      IssuedOnce(a + 1, b, x);
    }
  }

  lemma CountedTwice(ids: seq<int>, i: nat, j: nat)
    requires i < j < |ids| && ids[i] == ids[j]
    ensures multiset(ids)[ids[i]] >= 2
  {
    assert ids == ids[..i] + [ids[i]] + ids[i + 1..j] + [ids[j]] + ids[j + 1..];
  }

  lemma AccountOf(run: seq<Event>, id: int)
    ensures var (s, log) := Play(START, run);
            LiveIds(s)[id] + multiset(Ids(log))[id] == if 1 <= id <= |s.asked| then 1 else 0
  {
    var (s, log) := Play(START, run);
    RunConserves(START, run);
    IssuedOnce(0, |s.asked|, id);
    assert LiveIds(START) == multiset{};
    assert (LiveIds(s) + multiset(Ids(log)))[id] == Issued(0, |s.asked|)[id];
  }

  /** Whatever the clock does: every timer ever registered is, at any later time, either
      waiting (once) or has fired (once); none fires twice, none is lost. */
  lemma EveryTimerOnce(run: seq<Event>, id: int)
    ensures var (s, log) := Play(START, run);
            && LiveIds(s)[id] + multiset(Ids(log))[id] == (if 1 <= id <= |s.asked| then 1 else 0)
            && (forall i, j :: 0 <= i < j < |log| ==> log[i].timerId != log[j].timerId)
  {
    var (s, log) := Play(START, run);
    AccountOf(run, id);
    forall i, j | 0 <= i < j < |log| ensures log[i].timerId != log[j].timerId {
      if log[i].timerId == log[j].timerId {
        CountedTwice(Ids(log), i, j);
        AccountOf(run, log[i].timerId);
      }
    }
  }

  /** Whatever the clock does: a waiting timer has the callback, the kind and the interval it was
      registered with, stands where its deadline was then, and its deadline is never later. */
  lemma IntervalsAreKept(run: seq<Event>)
    ensures var s := Play(START, run).0;
            && (forall i :: 0 <= i < |s.store| ==> EntryOk(s.asked, s.store[i]))
            && (forall i :: 0 <= i < |s.pending| ==> InfoOk(s.asked, s.pending[i]) && s.pending[i].tmStart == s.asked[s.pending[i].timerId - 1].clock)
  {
    RunKeepsGood(START, run);
  }

  /** The loop timers an event asks for: from outside, or while a callback runs. */
  function LoopsOf(s: Sched, ev: Event): multiset<Loop> {
    match ev
    case Added(r, _) => LoopReg(r)
    case Ticked(_, between, env, _) => LoopRegs(between) + LoopsMeanwhile(env, 0, |FiredBy(s, ev)|)
  }

  function LoopsAsked(s: Sched, run: seq<Event>): multiset<Loop>
    decreases |run|
  {
    if run == [] then multiset{} else LoopsOf(s, run[0]) + LoopsAsked(After(s, run[0]), run[1..])
  }

  lemma AfterLoops(s: Sched, ev: Event)
    requires s.running
    ensures After(s, ev).running && LiveLoops(After(s, ev)) == LiveLoops(s) + LoopsOf(s, ev)
  {
    match ev {
      case Added(r, _) => RegisterLoops(s, r);
      case Ticked(now, between, env, _) =>
        var a := Inserted(s, between);
        RegisterAllStore(s, between);
        RegisterAllLoops(s, between);
        AddNewLoops(RegisterAll(s, between));
        LoopTimersStayAlive(a, now, env);
        ScanStops(a, 0, now, env);
    }
  }

  /** Between ticks every loop timer ever asked for has exactly one live entry, with the
      interval it was asked for with, however often it has fired and whatever the clock did. */
  lemma {:induction false} LoopTimersLiveForEver(s: Sched, run: seq<Event>)
    requires s.running
    ensures LiveLoops(Play(s, run).0) == LiveLoops(s) + LoopsAsked(s, run)
    decreases |run|
  {
    if run != [] {
      AfterLoops(s, run[0]);
      LoopTimersLiveForEver(After(s, run[0]), run[1..]);
    }
  }

  /** Once stopped, the service takes no timer and fires none, whatever is asked of it. */
  lemma {:induction false} StoppedServiceIsSilent(s: Sched, run: seq<Event>)
    requires !s.running && s.pending == [] && s.store == []
    ensures Play(s, run) == (s, [])
    decreases |run|
  {
    if run != [] {
      StoppedEvent(s, run[0]);
      StoppedServiceIsSilent(s, run[1..]);
      assert [] + Play(s, run[1..]).1 == Play(s, run[1..]).1;
    }
  }

  lemma StoppedEvent(s: Sched, ev: Event)
    requires !s.running && s.pending == [] && s.store == []
    ensures After(s, ev) == s && FiredBy(s, ev) == []
  {
    if ev.Ticked? {
      StoppedTakesNothing(s, ev.between);
      assert Inserted(s, ev.between) == s;
      assert s.store[0..] == s.store && Infos(s.store[..0]) == [];
    }
  }

  lemma {:induction false} StoppedTakesNothing(s: Sched, regs: seq<Registration>)
    requires !s.running
    ensures RegisterAll(s, regs) == s
    decreases |regs|
  {
    if regs != [] {
      StoppedTakesNothing(s, regs[1..]);
    }
  }

  // ------------------------------------------------------------ when passes are exact

  /** The next pass is exact, whenever it comes and whatever is registered before it. */
  ghost predicate ExactNext(s: Sched) {
    forall regs: seq<Registration>, now: int, env: nat -> Meanwhile :: Exact(Inserted(s, regs), now, env)
  }

  lemma {:induction false} InsertAllSynced(store: seq<Entry>, infos: seq<Info>)
    ensures Synced(InsertAll(store, infos)) <==> Synced(store)
    decreases |infos|
  {
    if infos != [] {
      var e := Entry(infos[0].tmEnd, infos[0]);
      InsertSynced(store, e);
      InsertAllSynced(Insert(store, e), infos[1..]);
    }
  }

  lemma InsertAt(store: seq<Entry>, e: Entry)
    ensures var u := UpperBound(store, e.key);
            && |Insert(store, e)| == |store| + 1 && Insert(store, e)[u] == e
            && (forall i :: 0 <= i < u ==> Insert(store, e)[i] == store[i])
            && (forall i :: u <= i < |store| ==> Insert(store, e)[i + 1] == store[i])
  {
  }

  lemma InsertSynced(store: seq<Entry>, e: Entry)
    requires e.key == e.info.tmEnd
    ensures Synced(Insert(store, e)) <==> Synced(store)
  {
    if Synced(Insert(store, e)) {
      SyncedBefore(store, e);
    }
    if Synced(store) {
      SyncedAfter(store, e);
    }
  }

  lemma SyncedBefore(store: seq<Entry>, e: Entry)
    requires Synced(Insert(store, e))
    ensures Synced(store)
  {
    var u := UpperBound(store, e.key);
    InsertAt(store, e);
    forall i | 0 <= i < |store| ensures store[i].key == store[i].info.tmEnd {
      assert store[i] == Insert(store, e)[if i < u then i else i + 1];
    }
  }

  lemma SyncedAfter(store: seq<Entry>, e: Entry)
    requires e.key == e.info.tmEnd && Synced(store)
    ensures Synced(Insert(store, e))
  {
    var u := UpperBound(store, e.key);
    InsertAt(store, e);
    forall i | 0 <= i < |Insert(store, e)| ensures Insert(store, e)[i].key == Insert(store, e)[i].info.tmEnd {
      assert i == u || Insert(store, e)[i] == store[if i < u then i else i - 1];
    }
  }

  lemma InsertedSynced(s: Sched, between: seq<Registration>)
    ensures Synced(Inserted(s, between).store) <==> Synced(s.store)
  {
    RegisterAllStore(s, between);
    InsertAllSynced(s.store, RegisterAll(s, between).pending);
  }

  lemma {:induction false} InsertAllHolds(store: seq<Entry>, infos: seq<Info>)
    ensures forall e :: e in store ==> e in InsertAll(store, infos)
    ensures forall i :: 0 <= i < |infos| ==> Entry(infos[i].tmEnd, infos[i]) in InsertAll(store, infos)
    decreases |infos|
  {
    if infos != [] {
      var e := Entry(infos[0].tmEnd, infos[0]);
      InsertHolds(store, e);
      InsertAllHolds(Insert(store, e), infos[1..]);
      forall i | 0 <= i < |infos| ensures Entry(infos[i].tmEnd, infos[i]) in InsertAll(store, infos) {
        assert i > 0 ==> infos[i] == infos[1..][i - 1];
      }
    }
  }

  lemma InsertHolds(store: seq<Entry>, e: Entry)
    ensures e in Insert(store, e) && forall x :: x in store ==> x in Insert(store, e)
  {
    var u := UpperBound(store, e.key);
    assert store == store[..u] + store[u..];
  }

  /** A reading at which every timer of the multimap is due. */
  function Latest(store: seq<Entry>): (m: int)
    ensures forall i :: 0 <= i < |store| ==> store[i].info.tmEnd <= m
  {
    if store == [] then 0 else
    var m := Latest(store[1..]);
    assert forall i :: 1 <= i < |store| ==> store[i] == store[1..][i - 1];
    if store[0].info.tmEnd > m then store[0].info.tmEnd else m
  }

  lemma AllFire(s: Sched, env: nat -> Meanwhile)
    ensures Fired(s, Latest(s.store), env) == Infos(s.store)
  {
    ScanStops(s, 0, Latest(s.store), env);
    assert s.store[..|s.store|] == s.store;
  }

  lemma KeysInOrder(store: seq<Entry>, i: nat, j: nat)
    requires Ordered(store) && i < j < |store|
    ensures store[i].key <= store[j].key
  {
    assert Before(store[i], store[j]);
  }

  lemma PlacesInOrder(store: seq<Entry>, p: nat, q: nat)
    requires Ordered(store) && p < |store| && q < |store| && store[p].key < store[q].key
    ensures p < q
  {
    if q < p {
      KeysInOrder(store, q, p);
    }
  }

  /** A stored timer whose deadline is before its key, and a later one with that deadline: the
      later one fires first. */
  lemma OutOfTurn(s: Sched, v: Entry, w: Entry, env: nat -> Meanwhile)
    requires Good(s) && v in s.store && w in s.store
    requires w.key == w.info.tmEnd == v.info.tmEnd < v.key && v.info.timerId < w.info.timerId
    ensures !Exact(s, Latest(s.store), env)
  {
    AllFire(s, env);
    var p :| 0 <= p < |s.store| && s.store[p] == w;
    var q :| 0 <= q < |s.store| && s.store[q] == v;
    PlacesInOrder(s.store, p, q);
    assert Fired(s, Latest(s.store), env)[p] == w.info && Fired(s, Latest(s.store), env)[q] == v.info;
  }

  /** With a timer out of step, a timer registered with the same interval at the same reading
      fires before it. */
  lemma StragglerShows(s: Sched, i: nat)
    requires Good(s) && s.running && i < |s.store| && s.store[i].key != s.store[i].info.tmEnd
    ensures !ExactNext(s)
  {
    var v := s.store[i];
    var r := Registration(v.info.tmEnd - v.info.tmStart, v.info.callback, false, v.info.tmStart);
    var s1 := Register(s, r);
    assert RegisterAll(s, [r]) == s1 by {
      assert [r][1..] == [];
      assert RegisterAll(s1, []) == s1;
    }
    var w := s1.pending[|s.pending|];
    KeepRegister(s, r);
    KeepInsertAll(s1);
    InsertAllHolds(s1.store, s1.pending);
    assert v in s1.store;
    var env := (n: nat) => Meanwhile([], 0);
    OutOfTurn(Inserted(s, [r]), v, Entry(w.tmEnd, w), env);
    assert !Exact(Inserted(s, [r]), Latest(Inserted(s, [r]).store), env);
  }

  /** The next pass is sure to be exact exactly when every key is the deadline. */
  lemma ExactNextIff(s: Sched)
    requires Good(s) && s.running
    ensures ExactNext(s) <==> Synced(s.store)
  {
    if Synced(s.store) {
      forall regs: seq<Registration>, now: int, env: nat -> Meanwhile ensures Exact(Inserted(s, regs), now, env) {
        InsertedKeeps(s, regs);
        InsertedSynced(s, regs);
        TickFiresExactlyTheDue(Inserted(s, regs), now, env);
      }
    } else {
      var i :| 0 <= i < |s.store| && s.store[i].key != s.store[i].info.tmEnd;
      StragglerShows(s, i);
    }
  }

  /** The timer a pass stops at was not started after the reading of the pass. */
  predicate Clean(s: Sched, ev: Event) {
    match ev
    case Added(_, _) => true
    case Ticked(now, between, env, _) =>
      var a := Inserted(s, between);
      var n := |Fired(a, now, env)|;
      n >= |a.store| || a.store[n].info.tmStart <= now
  }

  predicate CleanRun(s: Sched, run: seq<Event>)
    decreases |run|
  {
    run == [] || (Clean(s, run[0]) && CleanRun(After(s, run[0]), run[1..]))
  }

  /** At every point of the run the next pass is sure to be exact. */
  ghost predicate ExactRun(s: Sched, run: seq<Event>)
    decreases |run|
  {
    ExactNext(s) && (run == [] || ExactRun(After(s, run[0]), run[1..]))
  }

  lemma AfterSyncedIff(s: Sched, ev: Event)
    requires Synced(s.store)
    ensures Synced(After(s, ev).store) <==> Clean(s, ev)
  {
    match ev {
      case Added(r, _) =>
      case Ticked(now, between, env, _) =>
        var a := Inserted(s, between);
        InsertedSynced(s, between);
        ScanStops(a, 0, now, env);
        StaysSyncedIff(a, now, env);
    }
  }

  lemma AfterRuns(s: Sched, ev: Event)
    requires s.running
    ensures After(s, ev).running
  {
    match ev {
      case Added(r, _) =>
      case Ticked(now, between, env, _) =>
        RegisterAllStore(s, between);
        ScanStops(Inserted(s, between), 0, now, env);
    }
  }

  lemma {:induction false} ExactRunIffFrom(s: Sched, run: seq<Event>)
    requires Good(s) && s.running && Synced(s.store)
    ensures ExactRun(s, run) <==> CleanRun(s, run)
    decreases |run|
  {
    ExactNextIff(s);
    if run != [] {
      var s1 := After(s, run[0]);
      AfterKeeps(s, run[0]);
      AfterRuns(s, run[0]);
      AfterSyncedIff(s, run[0]);
      if Clean(s, run[0]) {
        ExactRunIffFrom(s1, run[1..]);
      } else {
        ExactNextIff(s1);
      }
    }
  }

  /** Whatever the clock does: passes stay exact all through a run exactly when no pass stops
      at a timer started after the reading of that pass. */
  lemma ExactRunIff(run: seq<Event>)
    ensures ExactRun(START, run) <==> CleanRun(START, run)
  {
    ExactRunIffFrom(START, run);
  }

  // ------------------------------------------------- runs whose clock never goes back

  predicate ReadBy(regs: seq<Registration>, c: int) {
    forall k :: 0 <= k < |regs| ==> regs[k].clock <= c
  }

  /** The clock stood at c before the event; no reading in it is from later than its end. */
  ghost predicate Forward(c: int, ev: Event) {
    match ev
    case Added(r, at) => c <= at && r.clock <= at
    case Ticked(now, between, env, till) =>
      c <= now <= till && ReadBy(between, till) && forall i: nat :: env(i).clock <= till && ReadBy(env(i).regs, till)
  }

  function Clock(ev: Event): int {
    match ev
    case Added(_, at) => at
    case Ticked(_, _, _, till) => till
  }

  ghost predicate ForwardRun(c: int, run: seq<Event>)
    decreases |run|
  {
    run != [] ==> Forward(c, run[0]) && ForwardRun(Clock(run[0]), run[1..])
  }

  function LastClock(c: int, run: seq<Event>): int
    decreases |run|
  {
    if run == [] then c else LastClock(Clock(run[0]), run[1..])
  }

  /** No timer registered between a reading and the insertion read a later clock. */
  predicate Undisturbed(ev: Event) {
    ev.Ticked? ==> ReadBy(ev.between, ev.now)
  }

  /** No stored or pending timer was started after clock reading c. */
  predicate StartedBy(s: Sched, c: int) {
    && (forall i :: 0 <= i < |s.store| ==> s.store[i].info.tmStart <= c)
    && (forall i :: 0 <= i < |s.pending| ==> s.pending[i].tmStart <= c)
  }

  lemma {:induction false} RegisterAllStarted(s: Sched, regs: seq<Registration>, c: int)
    requires StartedBy(s, c) && ReadBy(regs, c)
    ensures StartedBy(RegisterAll(s, regs), c)
    decreases |regs|
  {
    if regs != [] {
      RegisterAllStarted(Register(s, regs[0]), regs[1..], c);
    }
  }

  lemma {:induction false} ScanStarted(s: Sched, i: nat, now: int, env: nat -> Meanwhile, c: int)
    requires i <= |s.store| && StartedBy(s, c) && now <= c
    requires forall k: nat :: env(k).clock <= c && ReadBy(env(k).regs, c)
    ensures StartedBy(Scan(s, i, now, env).0, c)
    decreases |s.store| - i
  {
    if i < |s.store| && now >= s.store[i].info.tmEnd {
      RegisterAllStarted(s, env(i).regs, c);
      FireStore(s, s.store[i].info, env(i));
      ScanStarted(Fire(s, s.store[i].info, env(i)), i + 1, now, env, c);
    }
  }

  lemma {:induction false} AddNewStarted(s: Sched, c: int)
    requires StartedBy(s, c)
    ensures StartedBy(AddNew(s), c)
    decreases |s.pending|
  {
    if s.pending != [] {
      var e := Entry(s.pending[0].tmEnd, s.pending[0]);
      var s1 := s.(store := Insert(s.store, e), pending := s.pending[1..]);
      assert forall i :: 0 <= i < |s1.store| ==> s1.store[i] in s.store || s1.store[i] == e;
      AddNewStarted(s1, c);
    }
  }

  lemma AfterStarted(s: Sched, c: int, ev: Event)
    requires StartedBy(s, c) && Forward(c, ev)
    ensures StartedBy(After(s, ev), Clock(ev))
    ensures Undisturbed(ev) ==> Clean(s, ev)
  {
    match ev {
      case Added(r, _) =>
      case Ticked(now, between, env, till) =>
        var a := Inserted(s, between);
        RegisterAllStarted(s, between, till);
        AddNewStarted(RegisterAll(s, between), till);
        ScanStarted(a, 0, now, env, till);
        if Undisturbed(ev) {
          RegisterAllStarted(s, between, now);
          AddNewStarted(RegisterAll(s, between), now);
        }
    }
  }

  /** While readings only rise and no registration reads the clock between a reading of the
      timer thread and its insertion, every pass is clean. */
  lemma {:induction false} ForwardRunIsClean(s: Sched, c: int, run: seq<Event>)
    requires StartedBy(s, c) && ForwardRun(c, run) && forall i :: 0 <= i < |run| ==> Undisturbed(run[i])
    ensures CleanRun(s, run) && StartedBy(Play(s, run).0, LastClock(c, run))
    decreases |run|
  {
    if run != [] {
      AfterStarted(s, c, run[0]);
      ForwardRunIsClean(After(s, run[0]), Clock(run[0]), run[1..]);
    }
  }

  lemma {:induction false} CleanRunSynced(s: Sched, run: seq<Event>)
    requires Synced(s.store) && CleanRun(s, run)
    ensures Synced(Play(s, run).0.store)
    decreases |run|
  {
    if run != [] {
      AfterSyncedIff(s, run[0]);
      CleanRunSynced(After(s, run[0]), run[1..]);
    }
  }

  /** In such a run every tick fires exactly the stored timers that are due, in deadline order
      with ties in registration order, and leaves in the multimap only timers that are not due. */
  lemma ForwardTicksAreExact(c: int, run: seq<Event>, now: int, between: seq<Registration>, env: nat -> Meanwhile)
    requires ForwardRun(c, run) && (forall i :: 0 <= i < |run| ==> Undisturbed(run[i]))
    requires LastClock(c, run) <= now && ReadBy(between, now)
    ensures var s := Inserted(Play(START, run).0, between);
            var fired := Fired(s, now, env);
            && Exact(s, now, env)
            && Process(s, now, env).store == s.store[|fired|..]
            && (forall i :: 0 <= i < |Process(s, now, env).store| ==> now < Process(s, now, env).store[i].info.tmEnd)
  {
    var s0 := Play(START, run).0;
    RunKeepsGood(START, run);
    ForwardRunIsClean(START, c, run);
    CleanRunSynced(START, run);
    InsertedKeeps(s0, between);
    InsertedSynced(s0, between);
    RegisterAllStarted(s0, between, now);
    AddNewStarted(RegisterAll(s0, between), now);
    NothingDueIsLeft(Inserted(s0, between), now, env);
  }

  lemma NothingDueIsLeft(s: Sched, now: int, env: nat -> Meanwhile)
    requires Good(s) && Synced(s.store) && StartedBy(s, now)
    ensures Exact(s, now, env)
    ensures Process(s, now, env).store == s.store[|Fired(s, now, env)|..]
    ensures forall i :: 0 <= i < |Process(s, now, env).store| ==> now < Process(s, now, env).store[i].info.tmEnd
  {
    TickFiresExactlyTheDue(s, now, env);
    ScanStops(s, 0, now, env);
  }

  // ---------------------------------------------- a rising clock alone is not enough

  const QUIET: nat -> Meanwhile := n => Meanwhile([], 0)

  /** 50 ms asked for at 120, after the timer thread has read 100 and before it inserts; then
      40 ms asked for at 121. */
  const LATE := Registration(50, 1, false, 120)
  const NEXT := Registration(40, 2, false, 121)
  const RISING := [Ticked(100, [LATE], QUIET, 120), Added(NEXT, 121)]

  const REWOUND := Info(100, 150, 1, false, 1)
  const SECOND := Info(121, 161, 2, false, 2)

  lemma InsertOne(e: Entry)
    ensures Insert([], e) == [e]
  {
    assert UpperBound([], e.key) == 0;
  }

  lemma InsertFirst(e: Entry, x: Entry)
    requires e.key < x.key
    ensures Insert([x], e) == [e, x]
  {
    assert UpperBound([x], e.key) == 0;
  }

  lemma AddNewOne(s: Sched, e: Info)
    requires s.pending == [e]
    ensures AddNew(s) == s.(store := Insert(s.store, Entry(e.tmEnd, e)), pending := [])
  {
    assert InsertAll(Insert(s.store, Entry(e.tmEnd, e)), [e][1..]) == Insert(s.store, Entry(e.tmEnd, e));
  }

  lemma FirstTurn()
    ensures After(START, RISING[0]) == Sched(true, [], [Entry(170, REWOUND)], [LATE])
  {
    var s1 := Sched(true, [Info(120, 170, 1, false, 1)], [], [LATE]);
    assert RegisterAll(START, [LATE]) == s1 by {
      assert Register(START, LATE) == s1 && RegisterAll(s1, [LATE][1..]) == s1;
    }
    AddNewOne(s1, s1.pending[0]);
    InsertOne(Entry(170, s1.pending[0]));
  }

  lemma AfterRising()
    ensures Play(START, RISING).0 == Sched(true, [SECOND], [Entry(170, REWOUND)], [LATE, NEXT])
  {
    FirstTurn();
    var s1 := After(START, RISING[0]);
    assert RISING[1..] == [Added(NEXT, 121)];
    var s2 := Register(s1, NEXT);
    assert s2 == Sched(true, [SECOND], [Entry(170, REWOUND)], [LATE, NEXT]);
    assert Play(s2, [Added(NEXT, 121)][1..]) == (s2, []);
    assert Play(s1, [Added(NEXT, 121)]).0 == s2;
  }

  lemma TwoTimers()
    ensures Inserted(Play(START, RISING).0, []) == Sched(true, [], [Entry(161, SECOND), Entry(170, REWOUND)], [LATE, NEXT])
  {
    AfterRising();
    var s := Play(START, RISING).0;
    assert RegisterAll(s, []) == s;
    AddNewOne(s, SECOND);
    InsertFirst(Entry(161, SECOND), Entry(170, REWOUND));
  }

  /** Readings only rise, yet the tick at 155 fires nothing although a deadline of 150 has come;
      and the tick at 165 fires the deadline of 161 before that of 150, which was asked for 170. */
  lemma RisingClockIsNotEnough()
    ensures ForwardRun(100, RISING) && LastClock(100, RISING) == 121
    ensures !Synced(Play(START, RISING).0.store) && !CleanRun(START, RISING)
    ensures var s := Inserted(Play(START, RISING).0, []);
            && s.store == [Entry(161, SECOND), Entry(170, REWOUND)]
            && Fired(s, 155, QUIET) == [] && REWOUND.tmEnd <= 155 && !Exact(s, 155, QUIET)
            && Fired(s, 165, QUIET) == [SECOND, REWOUND] && REWOUND.tmEnd < SECOND.tmEnd && !Exact(s, 165, QUIET)
            && 165 < LATE.clock + LATE.ms
  {
    TwoTimers();
    RisingReads();
    OutOfStep();
    var s := Inserted(Play(START, RISING).0, []);
    assert s.store[1].info == REWOUND;
    FiresBoth(s);
  }

  lemma OutOfStep()
    ensures !Synced(Play(START, RISING).0.store) && !CleanRun(START, RISING)
  {
    AfterRising();
    assert Play(START, RISING).0.store[0] == Entry(170, REWOUND);
    if CleanRun(START, RISING) {
      CleanRunSynced(START, RISING);
    }
  }

  lemma RisingReads()
    ensures ForwardRun(100, RISING) && LastClock(100, RISING) == 121
  {
    assert RISING[1..] == [Added(NEXT, 121)];
    assert Forward(100, RISING[0]) && Forward(120, RISING[1]);
    assert ForwardRun(121, [Added(NEXT, 121)][1..]) && LastClock(121, [Added(NEXT, 121)][1..]) == 121;
    assert ForwardRun(120, [Added(NEXT, 121)]) && LastClock(120, [Added(NEXT, 121)]) == 121;
  }

  lemma FiresBoth(s: Sched)
    requires s.store == [Entry(161, SECOND), Entry(170, REWOUND)]
    ensures Fired(s, 165, QUIET) == [SECOND, REWOUND]
  {
    FireStore(s, SECOND, QUIET(0));
    var s1 := Fire(s, SECOND, QUIET(0));
    FireStore(s1, REWOUND, QUIET(1));
    assert Scan(Fire(s1, REWOUND, QUIET(1)), 2, 165, QUIET).1 == 2;
    assert Scan(s1, 1, 165, QUIET).1 == 2;
    assert Scan(s, 0, 165, QUIET).1 == 2;
    assert s.store[..2] == s.store;
  }
}
