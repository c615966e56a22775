// What every step of the scheduler keeps.

module SchedulerInvariant {
  import opened Bytes
  import opened SchedulerSpec
  import opened SchedulerSystem
  import Handles = HandleTableSpec

  function Queued(s: Sched): multiset<Id> {
    multiset(s.fill) + multiset(s.io) + multiset(s.cpu)
  }

  // How often a task occurs in the ready queues.
  ghost predicate Queues(s: Sched, id: Id) {
    if id !in s.state then Queued(s)[id] == 0
    else
      match s.state[id]
      case Ready => Queued(s)[id] == 1
      case Running => Queued(s)[id] == 0
      case Suspend => Queued(s)[id] == 0
      case Aborted => Queued(s)[id] <= 1
      case Complete => Queued(s)[id] <= 1 && id !in s.cpu
  }

  ghost predicate QueuesOk(s: Sched) {
    forall id :: Queues(s, id)
  }

  // The running task is the current one.
  ghost predicate CurrentOk(s: Sched) {
    && (forall id :: id in s.state && s.state[id] == Running ==> s.current == Some(id))
    && (s.current.Some? ==>
          s.current.value in s.state && s.state[s.current.value] != Suspend && s.state[s.current.value] != Complete)
  }

  predicate Live(s: Sched, id: Id) {
    id in s.state && s.state[id] != Complete
  }

  function LiveTasks(s: Sched): set<Id> {
    set id | id in s.state && Live(s, id)
  }

  ghost predicate CountOk(s: Sched) {
    !s.panicked ==> s.count == |LiveTasks(s)|
  }

  // Nothing waits for a complete task, and only the current task has priority.
  ghost predicate WaitsOk(s: Sched) {
    && (forall id :: id in s.state && id in s.joining && s.state[id] == Complete ==> s.joining[id] == [])
    && (forall id :: id in s.high ==> id in s.state && (s.current == Some(id) || s.state[id] == Complete))
  }

  ghost predicate Inv(s: Sched) {
    Known(s) && QueuesOk(s) && CurrentOk(s) && CountOk(s) && WaitsOk(s)
  }

  // The queues.

  lemma EnqueueAdds(s: Sched, id: Id)
    ensures Queued(Enqueue(s, id)) == Queued(s) + multiset{id}
    ensures Enqueue(s, id).cpu == s.cpu && Enqueue(s, id).state == s.state
  {
    if s.current.Some? && s.current.value in s.high {
      assert multiset(s.io + [id]) == multiset(s.io) + multiset{id};
    } else {
      assert multiset(s.fill + [id]) == multiset(s.fill) + multiset{id};
    }
  }

  lemma SameQueued(s: Sched, t: Sched)
    requires t.fill == s.fill && t.io == s.io && t.cpu == s.cpu
    ensures Queued(t) == Queued(s)
  {
  }

  lemma CpuAdds(s: Sched, t: Sched, id: Id)
    requires t.fill == s.fill && t.io == s.io && t.cpu == s.cpu + [id]
    ensures Queued(t) == Queued(s) + multiset{id}
  {
  }

  lemma IoRemoves(s: Sched, t: Sched)
    requires s.io != [] && t.fill == s.fill && t.io == s.io[1..] && t.cpu == s.cpu
    ensures Queued(s) == Queued(t) + multiset{s.io[0]}
  {
    assert s.io == [s.io[0]] + t.io;
  }

  lemma CpuRemoves(s: Sched, t: Sched)
    requires s.cpu != [] && t.fill == s.fill && t.io == s.io && t.cpu == s.cpu[1..]
    ensures Queued(s) == Queued(t) + multiset{s.cpu[0]}
  {
    assert s.cpu == [s.cpu[0]] + t.cpu;
  }

  lemma SwapKeeps(s: Sched)
    ensures Queued(PrepareCohort(s)) == Queued(s)
  {
  }

  lemma InQueue(s: Sched, id: Id)
    ensures Queued(s)[id] > 0 <==> id in s.fill || id in s.io || id in s.cpu
  {
  }

  lemma SameQueues(s: Sched, t: Sched)
    requires QueuesOk(s) && t.state == s.state && t.fill == s.fill && t.io == s.io && t.cpu == s.cpu
    ensures QueuesOk(t)
  {
    hide Queued;
    SameQueued(s, t);
    assert forall x :: Queues(s, x) == Queues(t, x);
  }

  // One task changes its state, and perhaps joins or leaves a queue.
  lemma QueuesAfter(s: Sched, t: Sched, id: Id, st: TaskReadyState)
    requires QueuesOk(s)
    requires t.state == s.state[id := st]
    requires forall x :: x != id ==> Queued(t)[x] == Queued(s)[x] && (x in t.cpu ==> x in s.cpu)
    requires Queues(t, id)
    ensures QueuesOk(t)
  {
    hide Queued;
    forall x
      ensures Queues(t, x)
    {
      assert Queues(s, x);
    }
  }

  // Wakes: tasks that ran or were suspended become ready and are queued. Nothing else changes.

  ghost predicate Woken(s: Sched, t: Sched) {
    && t.index == s.index && t.joining == s.joining && t.tasks == s.tasks && t.count == s.count
    && t.lastCpu == s.lastCpu && t.current == s.current && t.high == s.high && t.panicked == s.panicked
    && t.state.Keys == s.state.Keys && s.cpu <= t.cpu
    && (forall id :: id in s.state ==> Moved(s.state[id], t.state[id]))
    && (s.current == None || s.current.value !in s.high ==> t.io == s.io)
  }

  predicate Moved(a: TaskReadyState, b: TaskReadyState) {
    b == a || (b == Ready && (a == Running || a == Suspend))
  }

  lemma WokenTrans(s: Sched, t: Sched, u: Sched)
    requires Woken(s, t) && Woken(t, u)
    ensures Woken(s, u)
  {
  }

  lemma WokenSelf(s: Sched)
    ensures Woken(s, s)
  {
  }

  lemma ScheduleIoWakes(s: Sched, id: Id)
    requires id in s.state
    ensures Woken(s, ScheduleIo(s, id)) && ScheduleIo(s, id).cpu == s.cpu
  {
  }

  lemma {:induction false} WakeAllWoken(s: Sched, waiters: seq<Waiter>)
    ensures Woken(s, WakeAll(s, waiters)) && WakeAll(s, waiters).cpu == s.cpu
    decreases |waiters|
  {
    hide Woken, ScheduleIo;
    WokenSelf(s);
    if waiters != [] {
      var id := waiters[0].task;
      if id in s.state {
        ScheduleIoWakes(s, id);
      }
      var t := if id in s.state then ScheduleIo(s, id) else s;
      WakeAllWoken(t, waiters[1..]);
      WokenTrans(s, t, WakeAll(t, waiters[1..]));
    }
  }

  lemma ScheduleIoHolds(s: Sched, id: Id)
    requires QueuesOk(s) && id in s.state
    ensures QueuesOk(ScheduleIo(s, id)) && Woken(s, ScheduleIo(s, id)) && ScheduleIo(s, id).cpu == s.cpu
  {
    hide Queued, Woken;
    ScheduleIoWakes(s, id);
    var t := ScheduleIo(s, id);
    if s.state[id] == Running || s.state[id] == Suspend {
      var u := WithState(s, id, Ready);
      SameQueued(s, u);
      EnqueueAdds(u, id);
      assert Queues(s, id);
      QueuesAfter(s, t, id, Ready);
    }
  }

  lemma ScheduleCpuHolds(s: Sched, id: Id)
    requires QueuesOk(s) && id in s.state
    ensures QueuesOk(ScheduleCpu(s, id)) && Woken(s, ScheduleCpu(s, id))
  {
    hide Queued;
    var t := ScheduleCpu(s, id);
    if s.state[id] == Running || s.state[id] == Suspend {
      assert Queues(s, id);
      CpuAdds(s, t, id);
      QueuesAfter(s, t, id, Ready);
    }
  }

  lemma {:induction false} WakeAllHolds(s: Sched, waiters: seq<Waiter>)
    requires QueuesOk(s)
    ensures QueuesOk(WakeAll(s, waiters)) && Woken(s, WakeAll(s, waiters)) && WakeAll(s, waiters).cpu == s.cpu
    decreases |waiters|
  {
    hide QueuesOk, Woken, ScheduleIo;
    WakeAllWoken(s, waiters);
    if waiters != [] {
      var id := waiters[0].task;
      if id in s.state {
        ScheduleIoHolds(s, id);
      }
      WakeAllHolds(if id in s.state then ScheduleIo(s, id) else s, waiters[1..]);
    }
  }

  // The parts of the invariant that do not look at the queues.

  lemma SameLife(s: Sched, t: Sched)
    requires CountOk(s) && t.count == s.count && (t.panicked <==> s.panicked) && t.state.Keys == s.state.Keys
    requires forall id :: id in s.state ==> (s.state[id] == Complete <==> t.state[id] == Complete)
    ensures CountOk(t)
  {
    assert forall id :: Live(t, id) == Live(s, id);
    assert LiveTasks(t) == LiveTasks(s);
  }

  lemma WokenHolds(s: Sched, t: Sched)
    requires Woken(s, t) && CurrentOk(s) && CountOk(s) && WaitsOk(s)
    ensures CurrentOk(t) && CountOk(t) && WaitsOk(t)
  {
    SameLife(s, t);
  }

  lemma WakeHolds(s: Sched, t: Sched)
    requires Inv(s) && Known(t) && QueuesOk(t) && Woken(s, t)
    ensures Inv(t)
  {
    hide Known, QueuesOk, CurrentOk, CountOk, WaitsOk;
    WokenHolds(s, t);
  }

  lemma AbortHolds(s: Sched, id: Id)
    requires Inv(s) && id in s.state && s.state[id] != Running
    ensures Inv(AbortTask(s, id))
  {
    hide Queued, Known, CountOk;
    var t := AbortTask(s, id);
    ScheduleIsKnown(s, id);
    if t != s {
      var u := WithState(s, id, Aborted);
      assert Queues(s, id);
      SameQueued(s, u);
      EnqueueAdds(u, id);
      AbortFrame(s, id);
      QueuesAfter(s, t, id, Aborted);
      SameLife(s, t);
    }
  }

  lemma AbortFrame(s: Sched, id: Id)
    requires id in s.state && s.state[id] in {Suspend, Ready}
    ensures var t := AbortTask(s, id);
      && t.state == s.state[id := Aborted] && t.count == s.count && t.panicked == s.panicked
      && t.current == s.current && t.joining == s.joining && t.high == s.high && t.cpu == s.cpu
      && t.lastCpu == s.lastCpu
      && (s.current == None || s.current.value !in s.high ==> t.io == s.io)
  {
  }

  lemma SpawnHolds(s: Sched, id: Id)
    requires Inv(s) && id !in s.state
    ensures Inv(ScheduleNew(s, id))
  {
    hide Queued, Known, CountOk, QueuesOk;
    var t := ScheduleNew(s, id);
    NewTaskIsKnown(s, id);
    IsNew(s, id);
    EnqueueIsKnown(NewTask(s, id), id);
    SpawnFrame(s, id);
    SpawnQueues(s, id);
    SpawnCount(s, t, id);
  }

  lemma SpawnFrame(s: Sched, id: Id)
    ensures var t := ScheduleNew(s, id);
      && t.state == s.state[id := Ready] && t.index == s.index[id := Truncate(Handles.Fresh(s.tasks))]
      && t.joining == s.joining[id := []] && t.tasks == Handles.Insert(s.tasks, id) && t.count == s.count + 1
      && t.panicked == s.panicked && t.current == s.current && t.high == s.high && t.cpu == s.cpu
      && t.lastCpu == s.lastCpu
      && (s.current == None || s.current.value !in s.high ==> t.io == s.io)
  {
    hide Handles.Insert, Handles.Fresh, Truncate;
  }

  lemma SpawnQueues(s: Sched, id: Id)
    requires QueuesOk(s) && id !in s.state
    ensures QueuesOk(ScheduleNew(s, id))
  {
    hide Queued, Handles.Insert, Handles.Fresh;
    SpawnFrame(s, id);
    SameQueued(s, NewTask(s, id));
    EnqueueAdds(NewTask(s, id), id);
    assert Queues(s, id);
    QueuesAfter(s, ScheduleNew(s, id), id, Ready);
  }

  lemma SpawnCount(s: Sched, t: Sched, id: Id)
    requires CountOk(s) && id !in s.state && t.state == s.state[id := Ready] && t.count == s.count + 1
    requires t.panicked == s.panicked
    ensures CountOk(t) && |LiveTasks(t)| == |LiveTasks(s)| + 1
  {
    assert LiveTasks(t) == LiveTasks(s) + {id};
    assert id !in LiveTasks(s);
  }

  lemma PrepareHolds(s: Sched)
    requires Inv(s)
    ensures Inv(PrepareCohort(s))
  {
    hide Queued, CountOk;
    var t := PrepareCohort(s);
    SwapKeeps(s);
    assert forall id :: Queues(s, id) == Queues(t, id);
    SameLife(s, t);
  }

  // What taking a task does to the parts of the state.
  lemma TakeFrame(s: Sched)
    requires Known(s) && s.current == None
    ensures var t := Taken(s);
      && t.index == s.index && t.joining == s.joining && t.tasks == s.tasks && t.count == s.count
      && t.fill == s.fill && t.high == s.high && t.panicked == s.panicked
      && (s.io != [] ==> TakenIo(s, t))
      && (s.io == [] && !s.lastCpu && s.cpu != [] ==> TakenCpu(s, t))
      && (s.io == [] && (s.lastCpu || s.cpu == []) ==> t == s.(lastCpu := false))
  {
    hide Within, TakenIo, TakenCpu;
    if s.io != [] {
      TakeIoFrame(s);
    } else if !s.lastCpu && s.cpu != [] {
      TakeCpuFrame(s);
    }
  }

  lemma TakeIoFrame(s: Sched)
    requires Known(s) && s.current == None && s.io != []
    ensures TakenIo(s, Taken(s))
  {
  }

  lemma TakeCpuFrame(s: Sched)
    requires Known(s) && s.current == None && s.io == [] && !s.lastCpu && s.cpu != []
    ensures TakenCpu(s, Taken(s))
  {
  }

  predicate TakenIo(s: Sched, t: Sched)
    requires Known(s) && s.io != []
  {
    t.io == s.io[1..] && t.cpu == s.cpu && !t.lastCpu && Dispatched(s, t, s.io[0])
  }

  predicate TakenCpu(s: Sched, t: Sched)
    requires Known(s) && s.cpu != []
  {
    && t.io == s.io && t.cpu == s.cpu[1..] && t.lastCpu && t.current == Some(s.cpu[0])
    && t.state == s.state[s.cpu[0] := if s.state[s.cpu[0]] == Aborted then Aborted else Running]
  }

  // A task is taken from the cohort. A complete one is skipped.
  predicate Dispatched(s: Sched, t: Sched, id: Id)
    requires id in s.state
  {
    if s.state[id] == Complete then t.state == s.state && t.current == None
    else t.state == s.state[id := if s.state[id] == Aborted then Aborted else Running] && t.current == Some(id)
  }

  lemma TakeHolds(s: Sched)
    requires Inv(s) && s.current == None
    ensures Inv(Taken(s))
  {
    hide Known, Queued, CountOk, QueuesOk, Taken;
    var t := Taken(s);
    TakenIsKnown(s);
    TakeFrame(s);
    TakeQueues(s);
    TakenState(s);
    SameLife(s, t);
  }

  // A complete task is never taken from the CPU queue.
  lemma NoCompleteCpu(s: Sched)
    requires QueuesOk(s) && Known(s)
    ensures s.cpu != [] ==> s.cpu[0] in s.state && s.state[s.cpu[0]] != Complete
  {
    hide Queued;
    if s.cpu != [] {
      assert Queues(s, s.cpu[0]);
      assert s.cpu[0] in s.cpu;
    }
  }

  lemma TakenState(s: Sched)
    requires Known(s) && QueuesOk(s) && s.current == None
    ensures var t := Taken(s);
      && t.state.Keys == s.state.Keys
      && (forall x :: x in s.state ==> t.state[x] == s.state[x] || (t.state[x] == Running && t.current == Some(x)))
      && (forall x :: x in s.state ==> (s.state[x] == Complete <==> t.state[x] == Complete))
  {
    hide QueuesOk, Taken;
    NoCompleteCpu(s);
    TakeFrame(s);
  }

  lemma TakeQueues(s: Sched)
    requires Known(s) && QueuesOk(s) && s.current == None
    ensures QueuesOk(Taken(s))
  {
    hide Queued, Taken;
    var t := Taken(s);
    TakeFrame(s);
    if s.io != [] {
      var id := s.io[0];
      IoRemoves(s, t);
      assert Queues(s, id);
      QueuesAfter(s, t, id, t.state[id]);
    } else if !s.lastCpu && s.cpu != [] {
      var id := s.cpu[0];
      CpuRemoves(s, t);
      assert Queues(s, id);
      assert id in s.cpu;
      QueuesAfter(s, t, id, t.state[id]);
    } else {
      SameQueues(s, t);
    }
  }

  lemma PendingHolds(s: Sched)
    requires Inv(s) && s.current.Some?
    ensures Inv(EndPending(s))
  {
    hide Known, Queued, CountOk;
    var t := EndPending(s);
    PendingIsKnown(s);
    var id := s.current.value;
    SameQueued(s, t);
    assert Queues(s, id);
    QueuesAfter(s, t, id, t.state[id]);
    SameLife(s, t);
  }

  lemma PriorityHolds(s: Sched, on: bool)
    requires Inv(s) && s.current.Some?
    ensures Inv(SetHigh(s, on))
  {
    hide QueuesOk, CountOk;
    SameQueues(s, SetHigh(s, on));
    SameLife(s, SetHigh(s, on));
  }

  lemma JoiningHolds(s: Sched, id: Id, q: seq<Waiter>)
    requires Inv(s) && id in s.state && (s.state[id] == Complete ==> q == [])
    ensures Inv(s.(joining := s.joining[id := q]))
  {
    hide QueuesOk, CountOk;
    var t := s.(joining := s.joining[id := q]);
    JoinsAreKnown(s, id, q);
    SameQueues(s, t);
    SameLife(s, t);
  }

  lemma JoinHolds(s: Sched, target: Id, key: nat)
    requires Inv(s) && target in s.state && s.current.Some?
    ensures Inv(Join(s, target, key))
  {
    hide QueuesOk, CountOk, WaitsOk, WakeAll, Woken;
    JoiningHolds(s, target, []);
    var u := s.(joining := s.joining[target := []]);
    WakeAllIsKnown(u, s.joining[target]);
    WakeAllHolds(u, s.joining[target]);
    WakeHolds(u, WakeAll(u, s.joining[target]));
    if s.state[target] != Complete {
      JoiningHolds(s, target, Register(s.joining[target], Waiter(key, s.current.value)));
    }
  }

  lemma UnjoinHolds(s: Sched, target: Id, key: nat)
    requires Inv(s) && target in s.state
    ensures Inv(Unjoin(s, target, key))
  {
    hide QueuesOk, CountOk;
    assert s.joining[target] == [] ==> Unregister(s.joining[target], key) == [];
    JoiningHolds(s, target, Unregister(s.joining[target], key));
  }

  // The current task is marked complete, the joining tasks are woken, the table is changed.

  lemma MarkQueues(s: Sched)
    requires Inv(s) && Enabled(s, Done)
    ensures Known(MarkComplete(s, s.current.value)) && QueuesOk(MarkComplete(s, s.current.value))
  {
    hide Queued, CountOk, WaitsOk;
    var id := s.current.value;
    var u := MarkComplete(s, id);
    JoinsAreKnown(s, id, []);
    SameQueued(s, u);
    assert Queues(s, id);
    QueuesAfter(s, u, id, Complete);
  }

  // The state between the wakes and the change of the table.
  function AfterWakes(s: Sched): Sched
    requires Known(s) && s.current.Some?
  {
    WakeAll(MarkComplete(s, s.current.value), s.joining[s.current.value])
  }

  lemma AfterWakesHolds(s: Sched)
    requires Inv(s) && Enabled(s, Done)
    ensures Known(AfterWakes(s)) && QueuesOk(AfterWakes(s)) && AfterWakes(s).cpu == s.cpu
    ensures Woken(MarkComplete(s, s.current.value), AfterWakes(s))
  {
    hide QueuesOk, CountOk, WaitsOk, WakeAll, Woken, MarkComplete;
    var id := s.current.value;
    MarkQueues(s);
    WakeAllIsKnown(MarkComplete(s, id), s.joining[id]);
    WakeAllHolds(MarkComplete(s, id), s.joining[id]);
    MarkFrame(s, id);
  }

  lemma MarkFrame(s: Sched, id: Id)
    requires id in s.joining
    ensures MarkComplete(s, id).cpu == s.cpu
  {
  }

  lemma ForgetFrame(s: Sched, i: nat)
    ensures var t := Forget(s, i);
      && t.state == s.state && t.index == s.index && t.joining == s.joining && t.fill == s.fill && t.io == s.io
      && t.cpu == s.cpu && t.lastCpu == s.lastCpu && t.high == s.high && t.current == s.current
      && (t.panicked <==> s.panicked || i == 0 || s.count == 0)
      && (i != 0 ==> t.tasks == Handles.Remove(s.tasks, i)) && (i == 0 ==> t.tasks == s.tasks)
      && (i != 0 && s.count != 0 ==> t.count == s.count - 1)
  {
    hide Handles.Remove;
  }

  // What a completion does, apart from the queues.
  lemma DoneFrame(s: Sched)
    requires Inv(s) && Enabled(s, Done)
    ensures var t := Finished(s);
      var id := s.current.value;
      && t.state.Keys == s.state.Keys && t.state[id] == Complete
      && (forall x :: x in s.state && x != id ==> Moved(s.state[x], t.state[x]))
      && t.index == s.index && t.joining == s.joining[id := []] && t.high == s.high && t.current == None
      && t.cpu == s.cpu && t.lastCpu == s.lastCpu && (id !in s.high ==> t.io == s.io)
      && (t.panicked <==> s.index[id] == 0 || s.count == 0)
      && (!t.panicked ==> t.tasks == Handles.Remove(s.tasks, s.index[id]) && t.count == s.count - 1)
  {
    hide QueuesOk, CountOk, WaitsOk, WakeAll, Forget, Handles.Remove;
    AfterWakesHolds(s);
    ForgetFrame(AfterWakes(s), s.index[s.current.value]);
  }

  lemma DoneQueues(s: Sched)
    requires Inv(s) && Enabled(s, Done)
    ensures QueuesOk(Finished(s))
  {
    hide QueuesOk, CountOk, WaitsOk, WakeAll, Forget, Woken;
    AfterWakesHolds(s);
    ForgetFrame(AfterWakes(s), s.index[s.current.value]);
    SameQueues(AfterWakes(s), Finished(s));
  }

  lemma DoneCount(s: Sched, t: Sched, id: Id)
    requires Live(s, id) && t.state.Keys == s.state.Keys
    requires forall x :: x in s.state ==> (t.state[x] == Complete <==> x == id || s.state[x] == Complete)
    ensures LiveTasks(t) == LiveTasks(s) - {id} && |LiveTasks(t)| == |LiveTasks(s)| - 1
  {
    assert id in LiveTasks(s);
    forall x
      ensures x in LiveTasks(t) <==> x in LiveTasks(s) - {id}
    {
      assert Live(t, x) <==> Live(s, x) && x != id;
    }
  }

  lemma DoneHolds(s: Sched)
    requires Inv(s) && Enabled(s, Done)
    ensures Inv(Finished(s))
  {
    hide QueuesOk, Known, Finished, Queued;
    var t := Finished(s);
    var id := s.current.value;
    FinishedIsKnown(s);
    DoneQueues(s);
    DoneFrame(s);
    DoneCount(s, t, id);
  }

  lemma InvIsKnown(s: Sched)
    requires Inv(s)
    ensures Known(s)
  {
  }

  lemma StepHolds(s: Sched, a: Action)
    requires Inv(s)
    ensures Inv(Step(s, a))
  {
    hide Known, QueuesOk, CountOk, WaitsOk, Woken, CurrentOk, ScheduleIo, ScheduleCpu, AbortTask, Taken, EndPending,
      Finished, SetHigh, Join, Unjoin, ScheduleNew, PrepareCohort;
    if Enabled(s, a) {
      match a {
        case Spawn(id) => SpawnHolds(s, id);
        case Wake(id) =>
          ScheduleIsKnown(s, id);
          ScheduleIoHolds(s, id);
          WakeHolds(s, ScheduleIo(s, id));
        case WakeCpu(id) =>
          CpuIsKnown(s, id);
          ScheduleCpuHolds(s, id);
          WakeHolds(s, ScheduleCpu(s, id));
        case Abort(id) => AbortHolds(s, id);
        case SetPriority(on) => PriorityHolds(s, on);
        case JoinTask(target, key) => JoinHolds(s, target, key);
        case DropJoin(target, key) => UnjoinHolds(s, target, key);
        case Prepare => PrepareHolds(s);
        case Take => TakeHolds(s);
        case Pending => PendingHolds(s);
        case Done => DoneHolds(s);
      }
    }
  }

  lemma {:induction false} RunHolds(s: Sched, actions: seq<Action>)
    requires Inv(s)
    ensures Inv(RunFrom(s, actions))
    decreases |actions|
  {
    hide Inv, Step;
    InvIsKnown(s);
    if actions != [] {
      StepHolds(s, actions[0]);
      RunHolds(Step(s, actions[0]), actions[1..]);
    }
  }

  lemma ReachableHolds(actions: seq<Action>)
    ensures Inv(Run(actions))
  {
    RunHolds(INITIAL, actions);
  }
}
