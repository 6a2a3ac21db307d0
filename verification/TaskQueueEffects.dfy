/** What post() and close() have done when they return, in every run, and that tasks posted to an
    open queue get executed (fflib/base/task_queue.h:32-100). */
module TaskQueueEffects {
  import opened Options
  import opened Counting
  import opened TaskQueue

  /** Client t is inside one call all through the run and idle at its end, and not before. */
  predicate Completes(s: State, t: Tid, run: seq<Action>)
    requires Runnable(s, run) && t in s.threads
    decreases |run|
  {
    if run == [] then s.threads[t].Idle?
    else !s.threads[t].Idle? && t in Apply(s, run[0]).threads && Completes(Apply(s, run[0]), t, run[1..])
  }

  /** What one action appends to the accepted tasks. */
  function Appended(s: State, a: Action): seq<Task>
    requires Enabled(s, a)
  {
    if |s.accepted| <= |Apply(s, a).accepted| then Apply(s, a).accepted[|s.accepted|..] else []
  }

  /** Everything appended in a run, and what the steps of client t append. */
  function Pushed(s: State, run: seq<Action>): seq<Task>
    requires Runnable(s, run)
    decreases |run|
  {
    if run == [] then [] else Appended(s, run[0]) + Pushed(Apply(s, run[0]), run[1..])
  }

  function PushedBy(s: State, t: Tid, run: seq<Action>): seq<Task>
    requires Runnable(s, run)
    decreases |run|
  {
    if run == [] then []
    else (if run[0] == ClientStep(t) then Appended(s, run[0]) else []) + PushedBy(Apply(s, run[0]), t, run[1..])
  }

  /** m_flag as client t finds it at its next step. */
  function FlagSeen(s: State, t: Tid, run: seq<Action>): Option<bool>
    requires Runnable(s, run)
    decreases |run|
  {
    if run == [] then None
    else if run[0] == ClientStep(t) then Some(s.flag)
    else FlagSeen(Apply(s, run[0]), t, run[1..])
  }

  predicate By(a: Action, t: Tid) {
    match a
    case ConsumerStep => false
    case BeginPost(u, _) => u == t
    case BeginClose(u) => u == t
    case ClientStep(u) => u == t
  }

  lemma OthersLeave(s: State, a: Action, t: Tid)
    requires Enabled(s, a) && !By(a, t) && t in s.threads
    ensures t in Apply(s, a).threads && Apply(s, a).threads[t] == s.threads[t]
  {
  }

  lemma BusyContinues(s: State, a: Action, t: Tid)
    requires Enabled(s, a) && By(a, t) && t in s.threads && !s.threads[t].Idle?
    ensures a == ClientStep(t) && t in Apply(s, a).threads
  {
  }

  lemma OneAction(s: State, a: Action)
    requires Enabled(s, a)
    ensures Apply(s, a).accepted == s.accepted + Appended(s, a)
  {
    HistoryGrows(s, [a]);
    assert [a][1..] == [];
    assert Run(s, [a]) == Apply(s, a);
  }

  lemma AppendTwice(a: seq<Task>, b: seq<Task>, c: seq<Task>)
    ensures (a + b) + c == a + (b + c)
  {
  }

  lemma {:induction false} AcceptedIsPushed(s: State, run: seq<Action>)
    requires Runnable(s, run)
    ensures Run(s, run).accepted == s.accepted + Pushed(s, run)
    decreases |run|
  {
    if run != [] {
      OneAction(s, run[0]);
      AcceptedIsPushed(Apply(s, run[0]), run[1..]);
      AppendTwice(s.accepted, Appended(s, run[0]), Pushed(Apply(s, run[0]), run[1..]));
    }
  }

  // --------------------------------------------------------------------- post()

  predicate PostingPc(pc: Pc) {
    pc.PostCheck? || pc.PostLock? || pc.PostTest? || pc.PostPush? || pc.PostSignal? || pc.PostUnlock?
  }

  /** What the rest of a post() appends. */
  predicate PostDone(s: State, t: Tid, run: seq<Action>)
    requires Runnable(s, run) && t in s.threads && PostingPc(s.threads[t])
  {
    match s.threads[t]
    case PostCheck(task) =>
      FlagSeen(s, t, run).Some? && PushedBy(s, t, run) == if FlagSeen(s, t, run).value then [task] else []
    case PostLock(task) => PushedBy(s, t, run) == [task]
    case PostTest(task) => PushedBy(s, t, run) == [task]
    case PostPush(task, _) => PushedBy(s, t, run) == [task]
    case _ => PushedBy(s, t, run) == []
  }

  lemma {:induction false} PostGoesOn(s: State, t: Tid, run: seq<Action>)
    requires Runnable(s, run) && t in s.threads && PostingPc(s.threads[t]) && Completes(s, t, run)
    ensures PostDone(s, t, run)
    decreases |run|
  {
    if run != [] {
      var s1 := Apply(s, run[0]);
      if By(run[0], t) {
        BusyContinues(s, run[0], t);
        if s1.threads[t].Idle? {
          assert run[1..] == [];
        } else {
          PostGoesOn(s1, t, run[1..]);
        }
      } else {
        OthersLeave(s, run[0], t);
        PostGoesOn(s1, t, run[1..]);
      }
    }
  }

  /** In every run: a post() that finds m_flag up appends its task exactly once; one that finds it
      down appends nothing. */
  lemma PostCompletes(s: State, t: Tid, task: Task, run: seq<Action>)
    requires Enabled(s, BeginPost(t, task)) && Runnable(Apply(s, BeginPost(t, task)), run)
    requires Completes(Apply(s, BeginPost(t, task)), t, run)
    ensures var s1 := Apply(s, BeginPost(t, task));
            && FlagSeen(s1, t, run).Some?
            && PushedBy(s1, t, run) == (if FlagSeen(s1, t, run).value then [task] else [])
            && (FlagSeen(s1, t, run).value ==> task in Pushed(s1, run) && task in Run(s1, run).accepted)
  {
    var s1 := Apply(s, BeginPost(t, task));
    PostGoesOn(s1, t, run);
    AcceptedIsPushed(s1, run);
    PushedByIsPushed(s1, t, run, task);
  }

  lemma {:induction false} PushedByIsPushed(s: State, t: Tid, run: seq<Action>, task: Task)
    requires Runnable(s, run)
    ensures task in PushedBy(s, t, run) ==> task in Pushed(s, run)
    decreases |run|
  {
    if run != [] {
      PushedByIsPushed(Apply(s, run[0]), t, run[1..], task);
    }
  }

  /** n steps of client t and of nobody else. */
  function Steps(t: Tid, n: nat): (run: seq<Action>)
    ensures |run| == n && forall a :: a in run ==> a == ClientStep(t)
  {
    if n == 0 then [] else [ClientStep(t)] + Steps(t, n - 1)
  }

  predicate LeadsTo(s: State, t: Tid, n: nat, s': State) {
    Runnable(s, Steps(t, n)) && Run(s, Steps(t, n)) == s' && t in s.threads && Completes(s, t, Steps(t, n))
  }

  lemma OneMoreStep(s: State, t: Tid, n: nat, s': State)
    requires ClientEnabled(s, t) && LeadsTo(ClientNext(s, t), t, n, s')
    ensures LeadsTo(s, t, n + 1, s')
  {
    assert Steps(t, n + 1)[1..] == Steps(t, n);
  }

  /** What a post() from the empty or filled list leaves. */
  function AfterPost(s: State, t: Tid, task: Task): State {
    s.(list := s.list + [task], accepted := s.accepted + [task], threads := s.threads[t := Idle], mutex := None,
       consumer := if s.consumer.Waiting? then Reacquire else s.consumer)
  }

  /** An uninterrupted post() to an open queue takes six steps: the task is last in the list, a
      consumer that waits is woken, and nothing else has changed. */
  lemma PostAlone(s: State, t: Tid, task: Task)
    requires Reachable(s) && Enabled(s, BeginPost(t, task)) && s.flag && s.mutex.None?
    ensures LeadsTo(Apply(s, BeginPost(t, task)), t, 6, s.(list := s.list + [task], accepted := s.accepted + [task],
                      consumer := if s.consumer.Waiting? then Reacquire else s.consumer))
  {
    ReachableInv(s);
    var s1 := Apply(s, BeginPost(t, task));
    var s2 := ClientNext(s1, t);
    var s3 := ClientNext(s2, t);
    assert s3 == s.(threads := s.threads[t := PostTest(task)], mutex := Some(Client(t)));
    PostInside(s3, t, task);
    assert s.threads[t := Idle] == s.threads;
    assert AfterPost(s3, t, task) == AfterPost(s, t, task);
    OneMoreStep(s2, t, 4, AfterPost(s, t, task));
    OneMoreStep(s1, t, 5, AfterPost(s, t, task));
  }

  lemma PostInside(s: State, t: Tid, task: Task)
    requires t in s.threads && s.threads[t] == PostTest(task) && (s.consumer.Waiting? ==> s.list == [])
    ensures LeadsTo(s, t, 4, AfterPost(s, t, task))
  {
    var s1 := ClientNext(s, t);
    var s2 := ClientNext(s1, t);
    var s3 := ClientNext(s2, t);
    var s4 := ClientNext(s3, t);
    assert s4 == AfterPost(s, t, task);
    assert LeadsTo(s4, t, 0, s4);
    OneMoreStep(s3, t, 0, s4);
    OneMoreStep(s2, t, 1, s4);
    OneMoreStep(s1, t, 2, s4);
    OneMoreStep(s, t, 3, s4);
  }

  // -------------------------------------------------------------------- close()

  predicate ClosingPc(pc: Pc) {
    pc.CloseCheck? || pc.CloseLock? || pc.CloseSet? || pc.CloseBroadcast? || pc.CloseUnlock? || pc.CloseJoin?
  }

  predicate Closed(s: State) {
    !s.flag && s.consumer.Done?
  }

  predicate CloseDone(s: State, t: Tid, run: seq<Action>)
    requires Runnable(s, run) && t in s.threads && ClosingPc(s.threads[t])
  {
    if s.threads[t].CloseCheck? then FlagSeen(s, t, run).Some? && (FlagSeen(s, t, run).value ==> Closed(Run(s, run)))
    else Closed(Run(s, run))
  }

  lemma {:induction false} CloseGoesOn(s: State, t: Tid, run: seq<Action>)
    requires Inv(s) && Runnable(s, run) && t in s.threads && ClosingPc(s.threads[t]) && Completes(s, t, run)
    ensures CloseDone(s, t, run)
    decreases |run|
  {
    if run != [] {
      var s1 := Apply(s, run[0]);
      KeepInv(s, run[0]);
      if By(run[0], t) {
        BusyContinues(s, run[0], t);
        if s1.threads[t].Idle? {
          assert run[1..] == [];
        } else {
          CloseGoesOn(s1, t, run[1..]);
        }
      } else {
        OthersLeave(s, run[0], t);
        CloseGoesOn(s1, t, run[1..]);
      }
    }
  }

  /** In every run: when a close() that finds m_flag up returns, the flag is down and the consumer
      has ended. */
  lemma CloseCompletes(s: State, t: Tid, run: seq<Action>)
    requires Reachable(s) && Enabled(s, BeginClose(t)) && Runnable(Apply(s, BeginClose(t)), run)
    requires Completes(Apply(s, BeginClose(t)), t, run)
    ensures var s1 := Apply(s, BeginClose(t));
            FlagSeen(s1, t, run).Some? && (FlagSeen(s1, t, run).value ==> Closed(Run(s1, run)))
  {
    ReachableInv(s);
    KeepInv(s, BeginClose(t));
    CloseGoesOn(Apply(s, BeginClose(t)), t, run);
  }

  // ------------------------------------------------------------------- delivery

  /** While the queue is open the consumer has not left its loop. */
  lemma RunsWhileOpen(s: State)
    requires Reachable(s) && s.flag
    ensures !s.consumer.ReleaseEmpty? && !s.consumer.Clear? && !s.consumer.Done?
  {
    ReachableInv(s);
  }

  /** The consumer's way to the next task, while there is one. */
  function Distance(c: ConsumerPc): nat {
    match c
    case Waiting => 9
    case Execute(batch) => if batch == [] then 7 else 1
    case CheckFlag => 6
    case Acquire => 5
    case Reacquire => 5
    case Test => 4
    case Take => 3
    case ReleaseTaken(batch) => if batch == [] then 8 else 2
    case _ => 0
  }

  ghost function Waitings(s: State): nat {
    |Batch(s.consumer)| + |s.list| + Count(s.threads, Posting())
  }

  predicate Open(s: State) {
    s.flag && forall t :: t in s.threads ==> !s.threads[t].CloseSet?
  }

  predicate AllExecuted(s: State) {
    s.executed == s.accepted
  }

  lemma NothingWaits(s: State)
    requires Inv(s) && !s.consumer.Done?
    ensures AllExecuted(s) <==> Batch(s.consumer) == [] && s.list == []
  {
    assert s.accepted == s.accepted[..s.taken] + s.accepted[s.taken..];
    assert |s.accepted| == |s.executed| + |Batch(s.consumer)| + |s.list|;
    if Batch(s.consumer) == [] && s.list == [] {
      assert s.accepted == s.executed;
    }
  }

  /** The next step towards the tasks that wait: the consumer's, or that of the client inside the
      mutex. */
  function NextStep(s: State): Action {
    if ConsumerEnabled(s) || !(s.mutex.Some? && s.mutex.value.Client?) then ConsumerStep else ClientStep(s.mutex.value.t)
  }

  lemma NextStepEnabled(s: State)
    requires Inv(s) && Open(s) && !AllExecuted(s)
    ensures Enabled(s, NextStep(s)) && Open(Apply(s, NextStep(s)))
  {
    NothingWaits(s);
    if !ConsumerEnabled(s) {
      assert s.mutex.Some? && s.mutex != Some(Consumer);
      var t := s.mutex.value.t;
      assert s.mutex == Some(Client(t)) && ClientHolds(s.threads[t]);
    }
  }

  ghost predicate Nearer(a: State, b: State) {
    || Waitings(a) < Waitings(b)
    || (Waitings(a) == Waitings(b) && Distance(a.consumer) < Distance(b.consumer))
    || (Waitings(a) == Waitings(b) && Distance(a.consumer) == Distance(b.consumer) && HolderSteps(Holder(a)) < HolderSteps(Holder(b)))
  }

  lemma ConsumerNearer(s: State)
    requires Inv(s) && s.flag && !AllExecuted(s) && ConsumerEnabled(s)
    ensures Nearer(ConsumerNext(s), s)
  {
    NothingWaits(s);
  }

  lemma HolderNearer(s: State, t: Tid)
    requires Inv(s) && Open(s) && s.mutex == Some(Client(t)) && ClientEnabled(s, t)
    ensures Nearer(ClientNext(s, t), s)
  {
    var s' := ClientNext(s, t);
    assert ClientHolds(s.threads[t]) && Holder(s) == s.threads[t];
    Put(s.threads, t, s'.threads[t], Posting());
    assert s'.threads[t] == Holder(s') || s'.mutex.None?;
  }

  /** From any state of an open queue the consumer, and the clients in its way, execute every task
      accepted so far and those pushed meanwhile. */
  lemma {:induction false} TasksAreExecuted(s: State) returns (run: seq<Action>)
    requires Inv(s) && Open(s)
    ensures Runnable(s, run) && AllExecuted(Run(s, run)) && s.accepted <= Run(s, run).accepted
    ensures forall a :: a in run ==> a.ConsumerStep? || a.ClientStep?
    decreases Waitings(s), Distance(s.consumer), HolderSteps(Holder(s))
  {
    if AllExecuted(s) {
      return [];
    }
    var a := NextStep(s);
    NextStepEnabled(s);
    KeepInv(s, a);
    if a.ConsumerStep? {
      ConsumerNearer(s);
    } else {
      HolderNearer(s, a.t);
    }
    var rest := TasksAreExecuted(Apply(s, a));
    run := [a] + rest;
    assert run[1..] == rest;
    HistoryGrows(s, run);
  }
}
