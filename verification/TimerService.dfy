/** The timer scheduler (fflib/base/timer_service.h).  Clock readings and what happens while
    a callback runs (registrations by the callback or by any other thread) are parameters. */
module TimerService {
  type Callback = nat

  datatype Info = Info(tmStart: int, tmEnd: int, callback: Callback, isLoop: bool, timerId: nat)

  /** One element of the multimap m_mapRegisterfdedStore. */
  datatype Entry = Entry(key: int, info: Info)

  /** A call of loopTimer or onceTimer, with the clock it reads. */
  datatype Registration = Registration(ms: int, callback: Callback, isLoop: bool, clock: int)

  /** What happens while one callback runs, and the clock when a loop timer is put back. */
  datatype Meanwhile = Meanwhile(regs: seq<Registration>, clock: int)

  /** The fields of TimerService; `asked` remembers what was registered under each id. */
  datatype Sched = Sched(running: bool, pending: seq<Info>, store: seq<Entry>, asked: seq<Registration>)

  // ------------------------------------------------------------ specification

  function Register(s: Sched, r: Registration): Sched {
    if !s.running then s
    else s.(pending := s.pending + [Info(r.clock, r.clock + r.ms, r.callback, r.isLoop, |s.asked| + 1)],
            asked := s.asked + [r])
  }

  function RegisterAll(s: Sched, regs: seq<Registration>): Sched
    decreases |regs|
  {
    if regs == [] then s else RegisterAll(Register(s, regs[0]), regs[1..])
  }

  /** std::multimap::insert puts an element behind all elements of an equal key. */
  function UpperBound(store: seq<Entry>, key: int): (u: nat)
    ensures u <= |store|
    ensures forall i :: 0 <= i < u ==> store[i].key <= key
    ensures u < |store| ==> key < store[u].key
  {
    if store == [] || key < store[0].key then 0 else 1 + UpperBound(store[1..], key)
  }

  function Insert(store: seq<Entry>, e: Entry): seq<Entry> {
    var u := UpperBound(store, e.key);
    store[..u] + [e] + store[u..]
  }

  function InsertAll(store: seq<Entry>, infos: seq<Info>): seq<Entry>
    decreases |infos|
  {
    if infos == [] then store else InsertAll(Insert(store, Entry(infos[0].tmEnd, infos[0])), infos[1..])
  }

  function AddNew(s: Sched): Sched {
    s.(store := InsertAll(s.store, s.pending), pending := [])
  }

  /** What a pass finds: the registrations up to the insertion, those made after the clock was
      read among them, are in the multimap. */
  function Inserted(s: Sched, between: seq<Registration>): Sched {
    AddNew(RegisterAll(s, between))
  }

  /** checkTimeout on a timer that is not due: a reading from before its start moves its deadline. */
  function Rewind(e: Info, now: int): Info {
    if now < e.tmStart then e.(tmEnd := e.tmEnd - e.tmStart + now, tmStart := now) else e
  }

  /** How a loop timer that fired is put back. */
  function Rearm(e: Info, m: Meanwhile): Registration {
    Registration(e.tmEnd - e.tmStart, e.callback, true, m.clock)
  }

  function Fire(s: Sched, e: Info, m: Meanwhile): Sched {
    var s1 := RegisterAll(s, m.regs);
    if e.isLoop then Register(s1, Rearm(e, m)) else s1
  }

  /** The iterator loop from position i: the state it leaves and where it stops. */
  function Scan(s: Sched, i: nat, now: int, env: nat -> Meanwhile): (r: (Sched, nat))
    requires i <= |s.store|
    ensures |r.0.store| == |s.store| && i <= r.1 <= |s.store|
    decreases |s.store| - i
  {
    if i == |s.store| then (s, i)
    else if now >= s.store[i].info.tmEnd then
      var s1 := Fire(s, s.store[i].info, env(i));
      FireStore(s, s.store[i].info, env(i));
      Scan(s1, i + 1, now, env)
    else (s.(store := s.store[i := Entry(s.store[i].key, Rewind(s.store[i].info, now))]), i)
  }

  lemma {:induction false} RegisterAllStore(s: Sched, regs: seq<Registration>)
    ensures RegisterAll(s, regs).store == s.store && RegisterAll(s, regs).running == s.running
    decreases |regs|
  {
    if regs != [] {
      RegisterAllStore(Register(s, regs[0]), regs[1..]);
    }
  }

  /** Callbacks reach the pending list only. */
  lemma FireStore(s: Sched, e: Info, m: Meanwhile)
    ensures Fire(s, e, m).store == s.store && Fire(s, e, m).running == s.running
  {
    RegisterAllStore(s, m.regs);
  }

  function Process(s: Sched, now: int, env: nat -> Meanwhile): Sched {
    var (s1, n) := Scan(s, 0, now, env);
    s1.(store := s1.store[n..])
  }

  function Infos(store: seq<Entry>): (r: seq<Info>)
    ensures |r| == |store| && forall i :: 0 <= i < |r| ==> r[i] == store[i].info
  {
    seq(|store|, i requires 0 <= i < |store| => store[i].info)
  }

  /** The timers one tick fires, in order. */
  function Fired(s: Sched, now: int, env: nat -> Meanwhile): seq<Info> {
    Infos(s.store[..Scan(s, 0, now, env).1])
  }

  // -------------------------------------------------------------------- class

  class TimerService {
    var running: bool
    var pending: seq<Info>
    var store: seq<Entry>
    ghost var asked: seq<Registration>
    var autoId: nat

    ghost predicate Valid()
      reads this
    {
      autoId == |asked|
    }

    ghost function State(): Sched
      reads this
    {
      Sched(running, pending, store, asked)
    }

    constructor ()
      ensures Valid() && State() == Sched(true, [], [], [])
    {
      running := true;
      pending, store, asked := [], [], [];
      autoId := 0;
    }

    /** loopTimer and onceTimer, which differ in one flag. */
    method AddTimer(r: Registration)
      requires Valid()
      modifies this`pending, this`asked, this`autoId
      ensures Valid() && State() == Register(old(State()), r)
    {
      if !running {
        return;
      }
      var nowtm := r.clock;
      var destMs := nowtm + r.ms;
      autoId := autoId + 1;
      asked := asked + [r];
      pending := pending + [Info(nowtm, destMs, r.callback, r.isLoop, autoId)];
    }

    method AddNewTimer()
      requires Valid()
      modifies this`pending, this`store
      ensures Valid() && State() == AddNew(old(State()))
    {
      var i := 0;
      while i < |pending|
        invariant i <= |pending| && pending == old(pending)
        invariant InsertAll(store, pending[i..]) == InsertAll(old(store), pending)
      {
        assert pending[i..][1..] == pending[i + 1..];
        store := Insert(store, Entry(pending[i].tmEnd, pending[i]));
        i := i + 1;
      }
      pending := [];
    }

    /** RegisterfdedInfo::checkTimeout on the element at position i. */
    method CheckTimeout(i: nat, curms: int) returns (due: bool)
      requires i < |store|
      modifies this`store
      ensures due <==> curms >= old(store)[i].info.tmEnd
      ensures store == if due then old(store)
                       else old(store)[i := Entry(old(store)[i].key, Rewind(old(store)[i].info, curms))]
    {
      var e := store[i].info;
      if curms >= e.tmEnd {
        return true;
      }
      if curms < e.tmStart {
        e := e.(tmEnd := (e.tmEnd - e.tmStart) + curms);
        e := e.(tmStart := curms);
      }
      store := store[i := Entry(store[i].key, e)];
      return false;
    }

    /** Registrations that arrive one after the other: while a callback runs, or before a pass. */
    method AddTimers(regs: seq<Registration>)
      requires Valid()
      modifies this`pending, this`asked, this`autoId
      ensures Valid() && State() == RegisterAll(old(State()), regs)
    {
      var k := 0;
      while k < |regs|
        invariant k <= |regs| && Valid()
        invariant RegisterAll(State(), regs[k..]) == RegisterAll(old(State()), regs)
        invariant store == old(store) && running == old(running)
      {
        assert regs[k..][1..] == regs[k + 1..];
        AddTimer(regs[k]);
        k := k + 1;
      }
      RegisterAllStore(old(State()), regs);
    }

    /** One pass over the multimap; it ends because the map itself never grows here. */
    method ProcessTimerCallback(now: int, env: nat -> Meanwhile) returns (fired: seq<Info>)
      requires Valid()
      modifies this`pending, this`store, this`asked, this`autoId
      ensures Valid() && State() == Process(old(State()), now, env)
      ensures fired == Fired(old(State()), now, env)
    {
      var it := 0;
      fired := [];
      while it < |store|
        invariant it <= |store| && Valid()
        invariant store == old(store) && running == old(running)
        invariant Scan(State(), it, now, env) == Scan(old(State()), 0, now, env)
        invariant fired == Infos(store[..it])
        decreases |store| - it
      {
        ghost var before := State();
        var due := CheckTimeout(it, now);
        if !due {
          break;
        }
        var last := store[it].info;
        FireStore(before, last, env(it));
        AddTimers(env(it).regs);
        if last.isLoop {
          AddTimer(Rearm(last, env(it)));
        }
        assert Infos(store[..it + 1]) == Infos(store[..it]) + [last];
        fired := fired + [last];
        it := it + 1;
      }
      store := store[it..];
    }

    /** One turn of run().  The clock is read first; `between` is what other threads register
        after that and before the pending timers are inserted. */
    method Tick(curms: int, between: seq<Registration>, env: nat -> Meanwhile) returns (fired: seq<Info>)
      requires Valid()
      modifies this`pending, this`store, this`asked, this`autoId
      ensures Valid()
      ensures running == old(running)
      ensures old(running) ==> State() == Process(Inserted(old(State()), between), curms, env)
      ensures old(running) ==> fired == Fired(Inserted(old(State()), between), curms, env)
      ensures !old(running) ==> State() == old(State()) && fired == []
    {
      if !running {
        return [];
      }
      AddTimers(between);
      AddNewTimer();
      fired := ProcessTimerCallback(curms, env);
    }

    method Stop()
      modifies this`running, this`pending, this`store
      ensures old(running) ==> State() == Sched(false, [], [], old(asked))
      ensures !old(running) ==> State() == old(State())
      ensures old(Valid()) ==> Valid()
    {
      if running {
        running := false;
        pending := [];
        store := [];
      }
    }
  }
}
