/** The task queue (fflib/base/task_queue.h): one consumer thread, any number of client
    threads calling post() and close(), a mutex and a condition variable.  A step is one
    statement that reads or writes shared data; pthread_cond_wait releases the mutex and
    joins the wait set in one step. */
module TaskQueue {
  import opened Options
  import opened Counting

  type Tid = nat
  type Task = nat

  datatype Owner = Consumer | Client(t: Tid)

  /** run() and the consume() it calls. */
  datatype ConsumerPc =
    | CheckFlag                         // while (m_flag && ...
    | Acquire                           // LockGuard in consume()
    | Test                              // m_tasklist.empty()
    | TestFlag                          // false == m_flag
    | Waiting                           // m_cond.wait(): in the wait set
    | Reacquire                         // woken, wants the mutex back
    | Take                              // task_ = m_tasklist; m_tasklist.clear()
    | ReleaseTaken(batch: seq<Task>)    // return 0
    | ReleaseEmpty                      // return -1
    | Execute(batch: seq<Task>)         // (*it)() for the rest of the batch
    | Clear                             // m_tasklist.clear() at the end of run(), without the mutex
    | Done

  datatype Pc =
    | Idle
    | PostCheck(task: Task)             // if (!m_flag) return, without the mutex
    | PostLock(task: Task)
    | PostTest(task: Task)              // need_sig = m_tasklist.empty()
    | PostPush(task: Task, sig: bool)
    | PostSignal(sig: bool)
    | PostUnlock
    | CloseCheck                        // if (!m_flag) return, without the mutex
    | CloseLock
    | CloseSet                          // m_flag = false
    | CloseBroadcast
    | CloseUnlock
    | CloseJoin                         // m_thread.join()

  /** `accepted`, `executed` and `taken` record the history: every task pushed, every task
      run, and how many tasks have left the list in batches. */
  datatype State = State(
    flag: bool, list: seq<Task>, mutex: Option<Owner>, consumer: ConsumerPc, threads: map<Tid, Pc>,
    accepted: seq<Task>, executed: seq<Task>, taken: nat)

  datatype Action = ConsumerStep | BeginPost(t: Tid, task: Task) | BeginClose(t: Tid) | ClientStep(t: Tid)

  // ------------------------------------------------------------------ steps

  predicate ConsumerEnabled(s: State) {
    match s.consumer
    case Acquire => s.mutex.None?
    case Reacquire => s.mutex.None?
    case Waiting => false
    case Done => false
    case _ => true
  }

  function ConsumerNext(s: State): State
    requires ConsumerEnabled(s)
  {
    match s.consumer
    case CheckFlag => s.(consumer := if s.flag then Acquire else Clear)
    case Acquire => s.(consumer := Test, mutex := Some(Consumer))
    case Reacquire => s.(consumer := Test, mutex := Some(Consumer))
    case Test => s.(consumer := if s.list == [] then TestFlag else Take)
    case TestFlag => if s.flag then s.(consumer := Waiting, mutex := None) else s.(consumer := ReleaseEmpty)
    case Take => s.(consumer := ReleaseTaken(s.list), list := [], taken := s.taken + |s.list|)
    case ReleaseTaken(batch) => s.(consumer := Execute(batch), mutex := None)
    case ReleaseEmpty => s.(consumer := Clear, mutex := None)
    case Execute(batch) =>
      if batch == [] then s.(consumer := CheckFlag)
      else s.(consumer := Execute(batch[1..]), executed := s.executed + [batch[0]])
    case Clear => s.(consumer := Done, list := [])
  }

  predicate ClientEnabled(s: State, t: Tid) {
    && t in s.threads && !s.threads[t].Idle?
    && (s.threads[t].PostLock? || s.threads[t].CloseLock? ==> s.mutex.None?)
    && (s.threads[t].CloseJoin? ==> s.consumer.Done?)
  }

  function Wake(c: ConsumerPc): ConsumerPc {
    if c.Waiting? then Reacquire else c
  }

  function ClientNext(s: State, t: Tid): State
    requires ClientEnabled(s, t)
  {
    match s.threads[t]
    case PostCheck(task) => s.(threads := s.threads[t := if s.flag then PostLock(task) else Idle])
    case PostLock(task) => s.(threads := s.threads[t := PostTest(task)], mutex := Some(Client(t)))
    case PostTest(task) => s.(threads := s.threads[t := PostPush(task, s.list == [])])
    case PostPush(task, sig) =>
      s.(threads := s.threads[t := PostSignal(sig)], list := s.list + [task], accepted := s.accepted + [task])
    case PostSignal(sig) =>
      s.(threads := s.threads[t := PostUnlock], consumer := if sig then Wake(s.consumer) else s.consumer)
    case PostUnlock => s.(threads := s.threads[t := Idle], mutex := None)
    case CloseCheck => s.(threads := s.threads[t := if s.flag then CloseLock else Idle])
    case CloseLock => s.(threads := s.threads[t := CloseSet], mutex := Some(Client(t)))
    case CloseSet => s.(threads := s.threads[t := CloseBroadcast], flag := false)
    case CloseBroadcast => s.(threads := s.threads[t := CloseUnlock], consumer := Wake(s.consumer))
    case CloseUnlock => s.(threads := s.threads[t := CloseJoin], mutex := None)
    case CloseJoin => s.(threads := s.threads[t := Idle])
  }

  predicate Enabled(s: State, a: Action) {
    match a
    case ConsumerStep => ConsumerEnabled(s)
    case BeginPost(t, _) => t in s.threads && s.threads[t].Idle?
    case BeginClose(t) => t in s.threads && s.threads[t].Idle?
    case ClientStep(t) => ClientEnabled(s, t)
  }

  function Apply(s: State, a: Action): State
    requires Enabled(s, a)
  {
    match a
    case ConsumerStep => ConsumerNext(s)
    case BeginPost(t, task) => s.(threads := s.threads[t := PostCheck(task)])
    case BeginClose(t) => s.(threads := s.threads[t := CloseCheck])
    case ClientStep(t) => ClientNext(s, t)
  }

  predicate Initial(s: State) {
    && s.flag && s.list == s.accepted == s.executed == [] && s.taken == 0
    && s.mutex.None? && s.consumer == CheckFlag && forall t :: t in s.threads ==> s.threads[t].Idle?
  }

  predicate Runnable(s: State, run: seq<Action>)
    decreases |run|
  {
    run != [] ==> Enabled(s, run[0]) && Runnable(Apply(s, run[0]), run[1..])
  }

  function Run(s: State, run: seq<Action>): State
    requires Runnable(s, run)
    decreases |run|
  {
    if run == [] then s else Run(Apply(s, run[0]), run[1..])
  }

  ghost predicate Reachable(s: State) {
    exists s0, run :: Initial(s0) && Runnable(s0, run) && Run(s0, run) == s
  }

  // -------------------------------------------------------------- invariant

  /** What is left of the batch the consumer has taken. */
  function Batch(c: ConsumerPc): seq<Task> {
    if c.ReleaseTaken? || c.Execute? then c.batch else []
  }

  predicate ConsumerHolds(c: ConsumerPc) {
    c.Test? || c.TestFlag? || c.Take? || c.ReleaseTaken? || c.ReleaseEmpty?
  }

  predicate ClientHolds(pc: Pc) {
    pc.PostTest? || pc.PostPush? || pc.PostSignal? || pc.PostUnlock? || pc.CloseSet? || pc.CloseBroadcast? || pc.CloseUnlock?
  }

  predicate Exclusion(s: State) {
    && (ConsumerHolds(s.consumer) <==> s.mutex == Some(Consumer))
    && (forall t :: t in s.threads ==> (ClientHolds(s.threads[t]) <==> s.mutex == Some(Client(t))))
    && (s.mutex.Some? && s.mutex.value.Client? ==> s.mutex.value.t in s.threads)
  }

  predicate History(s: State) {
    && s.taken <= |s.accepted|
    && s.executed + Batch(s.consumer) == s.accepted[..s.taken]
    && (!s.consumer.Done? ==> s.list == s.accepted[s.taken..])
  }

  /** The client now inside the mutex, if any. */
  function Holder(s: State): Pc {
    if s.mutex.Some? && s.mutex.value.Client? && s.mutex.value.t in s.threads then s.threads[s.mutex.value.t] else Idle
  }

  predicate Wakeups(s: State) {
    && (s.consumer.Waiting? && s.list != [] ==> Holder(s) == PostSignal(true))
    && (s.consumer.Waiting? && !s.flag ==> Holder(s) == CloseBroadcast)
    && (s.consumer.Waiting? && Holder(s).PostPush? ==> Holder(s).sig)
    && (s.consumer.TestFlag? ==> s.list == [])
    && (s.consumer.Take? ==> s.list != [])
  }

  predicate Closing(s: State) {
    && (s.consumer.ReleaseEmpty? || s.consumer.Clear? || s.consumer.Done? ==> !s.flag)
    && (forall t :: t in s.threads && (s.threads[t].CloseBroadcast? || s.threads[t].CloseUnlock? || s.threads[t].CloseJoin?)
          ==> !s.flag)
  }

  predicate Inv(s: State) {
    Exclusion(s) && History(s) && Wakeups(s) && Closing(s)
  }

  lemma HistoryConsumer(s: State)
    requires History(s) && ConsumerEnabled(s)
    ensures History(ConsumerNext(s))
  {
    var s' := ConsumerNext(s);
    if s.consumer.Take? {
      assert s.accepted[..s.taken] + s.list == s.accepted;
    } else if s.consumer.Execute? && s.consumer.batch != [] {
      assert [s.consumer.batch[0]] + s.consumer.batch[1..] == s.consumer.batch;
      assert s'.executed + Batch(s'.consumer) == s.executed + s.consumer.batch;
    }
  }

  lemma KeepConsumer(s: State)
    requires Inv(s) && ConsumerEnabled(s)
    ensures Inv(ConsumerNext(s))
  {
    HistoryConsumer(s);
    ExclusionConsumer(s);
  }

  lemma ExclusionConsumer(s: State)
    requires Exclusion(s) && ConsumerEnabled(s)
    ensures Exclusion(ConsumerNext(s))
  {
  }

  lemma HistoryClient(s: State, t: Tid)
    requires History(s) && ClientEnabled(s, t)
    ensures History(ClientNext(s, t))
  {
  }

  lemma ExclusionClient(s: State, t: Tid)
    requires Exclusion(s) && ClientEnabled(s, t)
    ensures Exclusion(ClientNext(s, t))
  {
  }

  lemma KeepClient(s: State, t: Tid)
    requires Inv(s) && ClientEnabled(s, t)
    ensures Inv(ClientNext(s, t))
  {
    HistoryClient(s, t);
    ExclusionClient(s, t);
  }

  lemma KeepInv(s: State, a: Action)
    requires Inv(s) && Enabled(s, a)
    ensures Inv(Apply(s, a))
  {
    match a {
      case ConsumerStep => KeepConsumer(s);
      case ClientStep(t) => KeepClient(s, t);
      case BeginPost(_, _) =>
      case BeginClose(_) =>
    }
  }

  lemma {:induction false} RunKeepsInv(s: State, run: seq<Action>)
    requires Inv(s) && Runnable(s, run)
    ensures Inv(Run(s, run))
    decreases |run|
  {
    if run != [] {
      KeepInv(s, run[0]);
      RunKeepsInv(Apply(s, run[0]), run[1..]);
    }
  }

  lemma ReachableInv(s: State)
    requires Reachable(s)
    ensures Inv(s)
  {
    var s0, run :| Initial(s0) && Runnable(s0, run) && Run(s0, run) == s;
    RunKeepsInv(s0, run);
  }

  // -------------------------------------------------- conservation and order

  /** Nothing is lost, repeated or reordered while the consumer runs; over every run,
      close() included, what has been executed is a prefix of what was accepted. */
  lemma Conservation(s: State)
    requires Reachable(s)
    ensures !s.consumer.Done? ==> s.accepted == s.executed + Batch(s.consumer) + s.list
    ensures s.executed <= s.accepted && s.taken <= |s.accepted|
    ensures s.executed + Batch(s.consumer) == s.accepted[..s.taken]
  {
    ReachableInv(s);
    if !s.consumer.Done? {
      assert s.accepted == s.accepted[..s.taken] + s.accepted[s.taken..];
    }
  }

  /** Posting distinct tasks, no task is executed twice. */
  lemma NoDuplicates(s: State)
    requires Reachable(s) && forall i, j :: 0 <= i < j < |s.accepted| ==> s.accepted[i] != s.accepted[j]
    ensures forall i, j :: 0 <= i < j < |s.executed| ==> s.executed[i] != s.executed[j]
  {
    Conservation(s);
  }

  /** Both histories only grow. */
  lemma {:induction false} HistoryGrows(s: State, run: seq<Action>)
    requires Runnable(s, run)
    ensures s.accepted <= Run(s, run).accepted && s.executed <= Run(s, run).executed
    ensures s.taken <= Run(s, run).taken
    ensures !s.flag ==> !Run(s, run).flag
    decreases |run|
  {
    if run != [] {
      var s1 := Apply(s, run[0]);
      assert s.accepted <= s1.accepted && s.executed <= s1.executed;
      HistoryGrows(s1, run[1..]);
    }
  }

  /** A batch once taken runs to its end: whatever close() does, when the consumer is next
      between batches (or has stopped) it has executed every task it ever took. */
  lemma BatchRunsToEnd(s: State, run: seq<Action>)
    requires Reachable(s) && Runnable(s, run)
    requires !Run(s, run).consumer.Execute? && !Run(s, run).consumer.ReleaseTaken?
    ensures s.executed + Batch(s.consumer) <= Run(s, run).executed
    ensures Run(s, run).taken <= |Run(s, run).accepted|
    ensures Run(s, run).executed == Run(s, run).accepted[..Run(s, run).taken]
  {
    ReachableInv(s);
    RunKeepsInv(s, run);
    HistoryGrows(s, run);
    var s' := Run(s, run);
    assert s'.executed + [] == s'.executed;
  }

  // ----------------------------------------------------------------- wake-ups

  /** No lost wake-up: when the consumer sleeps and nobody is inside the mutex, there is
      nothing to do; and while somebody is, a signal that is needed is about to be sent. */
  lemma NoLostWakeup(s: State)
    requires Reachable(s) && s.consumer.Waiting?
    ensures s.mutex.None? ==> s.list == [] && s.flag
    ensures s.list != [] || !s.flag ==>
              exists t :: t in s.threads && s.mutex == Some(Client(t)) && ClientEnabled(s, t)
                       && ClientNext(s, t).consumer.Reacquire?
  {
    ReachableInv(s);
    if s.list != [] || !s.flag {
      var t := s.mutex.value.t;
      assert ClientEnabled(s, t) && ClientNext(s, t).consumer.Reacquire?;
    }
  }

  // ----------------------------------------------------------------- shutdown

  /** How far the consumer is from its end once m_flag is down. */
  function Phase(c: ConsumerPc): nat {
    match c
    case Waiting => 10
    case Acquire => 9
    case Reacquire => 9
    case Test => 8
    case TestFlag => 7
    case Take => 6
    case ReleaseTaken(_) => 5
    case Execute(_) => 4
    case CheckFlag => 3
    case ReleaseEmpty => 2
    case Clear => 1
    case Done => 0
  }

  predicate Closer(a: ConsumerPc, b: ConsumerPc) {
    Phase(a) < Phase(b) || (Phase(a) == Phase(b) && |Batch(a)| < |Batch(b)|)
  }

  /** With m_flag down every consumer step is progress and no other step undoes any. */
  lemma ShutdownProgress(s: State, a: Action)
    requires Inv(s) && !s.flag && Enabled(s, a)
    ensures a.ConsumerStep? ==> Closer(Apply(s, a).consumer, s.consumer)
    ensures !a.ConsumerStep? ==> Apply(s, a).consumer == s.consumer || Closer(Apply(s, a).consumer, s.consumer)
  {
  }

  /** A post() that has passed its look at m_flag and has not pushed yet. */
  function Posting(): Pc -> bool {
    (pc: Pc) => pc.PostLock? || pc.PostTest? || pc.PostPush?
  }

  /** The most steps the consumer can still take: its phases, and one for each task in its
      batch, in the list or about to be pushed. */
  ghost function StepsLeft(s: State): nat {
    Phase(s.consumer) + |Batch(s.consumer)| + |s.list| + Count(s.threads, Posting())
  }

  lemma ConsumerUsesStep(s: State)
    requires Inv(s) && !s.flag && ConsumerEnabled(s)
    ensures StepsLeft(ConsumerNext(s)) < StepsLeft(s)
  {
  }

  lemma ClientUsesNone(s: State, t: Tid)
    requires Inv(s) && !s.flag && ClientEnabled(s, t)
    ensures StepsLeft(ClientNext(s, t)) <= StepsLeft(s)
  {
    Put(s.threads, t, ClientNext(s, t).threads[t], Posting());
  }

  lemma UsesSteps(s: State, a: Action)
    requires Inv(s) && !s.flag && Enabled(s, a)
    ensures StepsLeft(Apply(s, a)) + One(a.ConsumerStep?) <= StepsLeft(s)
  {
    match a {
      case ConsumerStep => ConsumerUsesStep(s);
      case BeginPost(t, task) => Put(s.threads, t, PostCheck(task), Posting());
      case BeginClose(t) => Put(s.threads, t, CloseCheck, Posting());
      case ClientStep(t) => ClientUsesNone(s, t);
    }
  }

  function ConsumerSteps(run: seq<Action>): nat {
    if run == [] then 0 else One(run[0].ConsumerStep?) + ConsumerSteps(run[1..])
  }

  /** After close() the consumer takes a bounded number of steps in every run, whatever the
      clients do, and each brings it nearer its end. */
  lemma {:induction false} ShutdownRuns(s: State, run: seq<Action>)
    requires Inv(s) && !s.flag && Runnable(s, run)
    ensures ConsumerSteps(run) + StepsLeft(Run(s, run)) <= StepsLeft(s)
    ensures Run(s, run).consumer == s.consumer || Closer(Run(s, run).consumer, s.consumer)
    ensures ConsumerStep in run ==> Closer(Run(s, run).consumer, s.consumer)
    decreases |run|
  {
    if run != [] {
      var s1 := Apply(s, run[0]);
      KeepInv(s, run[0]);
      ShutdownProgress(s, run[0]);
      UsesSteps(s, run[0]);
      HistoryGrows(s, [run[0]]);
      ShutdownRuns(s1, run[1..]);
    }
  }

  /** Steps left for the client inside the mutex. */
  function HolderSteps(pc: Pc): nat {
    match pc
    case PostTest(_) => 4
    case PostPush(_, _) => 3
    case PostSignal(_) => 2
    case PostUnlock => 1
    case CloseSet => 3
    case CloseBroadcast => 2
    case CloseUnlock => 1
    case _ => 0
  }

  /** Until it is done, the consumer can step or the client inside the mutex can. */
  lemma ShutdownEnabled(s: State)
    requires Inv(s) && !s.flag && !s.consumer.Done?
    ensures ConsumerEnabled(s) ||
            (s.mutex.Some? && s.mutex.value.Client? && ClientEnabled(s, s.mutex.value.t)
             && HolderSteps(Holder(ClientNext(s, s.mutex.value.t))) < HolderSteps(Holder(s)))
  {
    if !ConsumerEnabled(s) {
      assert s.mutex.Some? && s.mutex != Some(Consumer);
      var t := s.mutex.value.t;
      assert s.mutex == Some(Client(t)) && ClientHolds(s.threads[t]);
      assert Holder(s) == s.threads[t];
      assert ClientNext(s, t).threads[t] == Holder(ClientNext(s, t)) || ClientNext(s, t).mutex.None?;
    }
  }

  /** After close() has cleared the flag the consumer reaches its end, and then every join
      returns: scheduling the consumer, or the client that keeps it waiting, is enough. */
  lemma {:induction false} CloseTerminates(s: State) returns (run: seq<Action>)
    requires Inv(s) && !s.flag
    ensures Runnable(s, run) && Run(s, run).consumer.Done?
    ensures forall a :: a in run ==> a.ConsumerStep? || a.ClientStep?
    ensures forall t :: t in Run(s, run).threads && Run(s, run).threads[t].CloseJoin? ==> ClientEnabled(Run(s, run), t)
    decreases Phase(s.consumer), |Batch(s.consumer)|, HolderSteps(Holder(s))
  {
    if s.consumer.Done? {
      return [];
    }
    ShutdownEnabled(s);
    var a := if ConsumerEnabled(s) then ConsumerStep else ClientStep(s.mutex.value.t);
    KeepInv(s, a);
    ShutdownProgress(s, a);
    HistoryGrows(s, [a]);
    var rest := CloseTerminates(Apply(s, a));
    run := [a] + rest;
    assert run[1..] == rest;
  }
}
