// The task table, and the 16-bit index that a task keeps of its place there.

module SchedulerTable {
  import opened Bytes
  import opened SchedulerSpec
  import opened SchedulerSystem
  import opened SchedulerInvariant
  import opened SchedulerRuns
  import Handles = HandleTableSpec

  // The steps that leave the table alone, and so the set of live tasks: all but `Spawn` and `Done`.
  lemma TableUntouched(s: Sched, a: Action)
    requires Inv(s) && !a.Spawn? && !a.Done?
    ensures var t := Step(s, a);
      && t.tasks == s.tasks && t.index == s.index && t.panicked == s.panicked && t.state.Keys == s.state.Keys
      && LiveTasks(t) == LiveTasks(s)
      && forall id :: Live(t, id) <==> Live(s, id)
  {
    hide QueuesOk, CountOk, Known, LiveTasks, Step;
    var t := Step(s, a);
    SameCompletion(s, a);
    forall id
      ensures Live(t, id) <==> Live(s, id)
    {
    }
    SameLiveTasks(s, t);
  }

  lemma SameLiveTasks(s: Sched, t: Sched)
    requires t.state.Keys == s.state.Keys && forall id :: Live(t, id) <==> Live(s, id)
    ensures LiveTasks(t) == LiveTasks(s)
  {
  }

  ghost predicate SameTable(s: Sched, t: Sched) {
    && t.tasks == s.tasks && t.index == s.index && t.panicked == s.panicked && t.state.Keys == s.state.Keys
    && forall id :: id in s.state ==> (s.state[id] == Complete <==> t.state[id] == Complete)
  }

  lemma SameCompletion(s: Sched, a: Action)
    requires Inv(s) && !a.Spawn? && !a.Done?
    ensures SameTable(s, Step(s, a))
  {
    hide Queued, QueuesOk, CountOk, Taken, WakeAll, Known;
    if Enabled(s, a) {
      match a {
        case Wake(id) => ScheduleIoHolds(s, id);
        case WakeCpu(id) => ScheduleCpuHolds(s, id);
        case Abort(id) =>
          if s.state[id] in {Suspend, Ready} {
            AbortTable(s, id);
          }
        case Take =>
          TakeFrame(s);
          TakenState(s);
        case JoinTask(target, _) =>
          KnownTask(s, target);
          JoiningHolds(s, target, []);
          WakeAllHolds(s.(joining := s.joining[target := []]), s.joining[target]);
        case _ =>
      }
    }
  }

  lemma AbortTable(s: Sched, id: Id)
    requires id in s.state && s.state[id] in {Suspend, Ready}
    ensures SameTable(s, AbortTask(s, id))
  {
  }

  // The entries are the live tasks, and each live task stores its own index.
  ghost predicate Agree(live: set<Id>, index: map<Id, nat>, values: map<Handles.Index, Id>) {
    && (forall id :: id in live ==> id in index && index[id] in values && values[index[id]] == id)
    && (forall i :: i in values ==> values[i] in live && index[values[i]] == i)
    && |values| == |live|
  }

  ghost predicate TableOk(s: Sched) {
    && !s.panicked && Handles.Sound(s.tasks) && s.tasks.size < 65536
    && Agree(LiveTasks(s), s.index, s.tasks.values)
  }

  lemma AgreeInsert(live: set<Id>, index: map<Id, nat>, values: map<Handles.Index, Id>, id: Id, i: Handles.Index)
    requires Agree(live, index, values) && id !in live && i !in values
    ensures Agree(live + {id}, index[id := i], values[i := id])
  {
  }

  lemma AgreeRemove(live: set<Id>, index: map<Id, nat>, values: map<Handles.Index, Id>, id: Id)
    requires Agree(live, index, values) && id in live
    ensures index[id] > 0 && Agree(live - {id}, index, values - {index[id]})
  {
    assert (values - {index[id]}).Keys == values.Keys - {index[id]};
    assert |values.Keys| == |values| && |(values - {index[id]}).Keys| == |values - {index[id]}|;
  }

  lemma SpawnTable(s: Sched, t: Sched, id: Id)
    requires TableOk(s) && id !in s.state && !t.panicked && |LiveTasks(s)| + 1 < 65536
    requires t.state == s.state[id := Ready] && t.index == s.index[id := Truncate(Handles.Fresh(s.tasks))]
    requires t.tasks == Handles.Insert(s.tasks, id)
    ensures TableOk(t)
  {
    hide Handles.Sound, Handles.Insert, Handles.Fresh, Agree, Truncate;
    Handles.InsertIsSound(s.tasks, id);
    var i := Handles.Fresh(s.tasks);
    FreshFits(s.tasks, id);
    SameSize(s);
    TruncateFits(i);
    assert LiveTasks(t) == LiveTasks(s) + {id};
    AgreeInsert(LiveTasks(s), s.index, s.tasks.values, id, i);
  }

  lemma TruncateFits(i: nat)
    ensures Truncate(i) == i <==> i < 65536
  {
  }

  lemma SameSize(s: Sched)
    requires TableOk(s)
    ensures |s.tasks.values| == |LiveTasks(s)|
  {
  }

  lemma FreshFits(t: Handles.Table<Id>, id: Id)
    requires Handles.Sound(t)
    ensures Handles.Fresh(t) <= Handles.Insert(t, id).size
  {
    assert t.chain != [] ==> t.chain[0] in t.chain;
  }

  lemma DoneTable(s: Sched, t: Sched, id: Id)
    requires TableOk(s) && Live(s, id) && id in s.index && s.index[id] > 0 && !t.panicked
    requires t.state.Keys == s.state.Keys && t.index == s.index
    requires forall x :: x in s.state ==> (t.state[x] == Complete <==> x == id || s.state[x] == Complete)
    requires t.tasks == Handles.Remove(s.tasks, s.index[id])
    ensures TableOk(t)
  {
    hide Handles.Sound, Handles.Remove, Agree;
    Handles.RemoveIsSound(s.tasks, s.index[id]);
    DoneCount(s, t, id);
    assert id in LiveTasks(s);
    AgreeRemove(LiveTasks(s), s.index, s.tasks.values, id);
  }

  lemma TableStep(s: Sched, a: Action)
    requires Inv(s) && TableOk(s) && |LiveTasks(Step(s, a))| < 65536
    ensures TableOk(Step(s, a))
  {
    hide QueuesOk, Known, TableOk, WaitsOk, Step, Live, LiveTasks;
    if !Enabled(s, a) {
      Disabled(s, a);
    } else if a.Spawn? {
      SpawnStep(s, a.id);
    } else if a.Done? {
      DoneStep(s);
    } else {
      TableUntouched(s, a);
      assert TableOk(Step(s, a)) by { hide *; TableFrame(s, Step(s, a)); }
    }
  }

  lemma TableFrame(s: Sched, t: Sched)
    requires TableOk(s) && t.tasks == s.tasks && t.index == s.index && t.panicked == s.panicked
    requires LiveTasks(t) == LiveTasks(s)
    ensures TableOk(t)
  {
    hide Handles.Sound, Agree;
  }

  lemma Disabled(s: Sched, a: Action)
    requires Known(s) && !Enabled(s, a)
    ensures Step(s, a) == s
  {
  }

  lemma SpawnStep(s: Sched, id: Id)
    requires Inv(s) && TableOk(s) && Enabled(s, Spawn(id)) && |LiveTasks(Step(s, Spawn(id)))| < 65536
    ensures TableOk(Step(s, Spawn(id)))
  {
    hide QueuesOk, Known, TableOk, WaitsOk, ScheduleNew, Handles.Insert, Handles.Fresh, LiveTasks;
    SpawnFrame(s, id);
    SpawnCount(s, Step(s, Spawn(id)), id);
    SpawnTable(s, Step(s, Spawn(id)), id);
  }

  lemma DoneStep(s: Sched)
    requires Inv(s) && TableOk(s) && Enabled(s, Done)
    ensures TableOk(Step(s, Done))
  {
    hide QueuesOk, Known, WaitsOk, Finished, Handles.Remove, Handles.Sound;
    DoneFrame(s);
    var id := s.current.value;
    KnownTask(s, id);
    assert id in LiveTasks(s);
    DoneTable(s, Step(s, Done), id);
  }

  // At every moment of the run fewer than 65536 tasks are live.
  ghost predicate Bounded(s: Sched, actions: seq<Action>)
    requires Known(s)
    decreases |actions|
  {
    |LiveTasks(s)| < 65536 && (actions == [] || Bounded(Step(s, actions[0]), actions[1..]))
  }

  // In such a run the event loop never panics, and the table, the indexes and the count agree with
  // the tasks that are not complete.
  lemma {:induction false} BoundedHolds(s: Sched, actions: seq<Action>)
    requires Inv(s) && TableOk(s) && Bounded(s, actions)
    ensures Inv(RunFrom(s, actions)) && TableOk(RunFrom(s, actions))
    decreases |actions|
  {
    hide Inv, TableOk, Step, LiveTasks;
    InvIsKnown(s);
    if actions != [] {
      TableStep(s, actions[0]);
      StepHolds(s, actions[0]);
      BoundedHolds(Step(s, actions[0]), actions[1..]);
    }
  }

  lemma TableIsExact(actions: seq<Action>, id: Id)
    requires Bounded(INITIAL, actions)
    ensures var s := Run(actions);
      && !s.panicked && s.count == |LiveTasks(s)| && s.count == |s.tasks.values|
      && (Live(s, id) <==> id in s.tasks.values.Values)
      && (Live(s, id) ==> id in s.index && s.index[id] in s.tasks.values && s.tasks.values[s.index[id]] == id)
  {
    assert LiveTasks(INITIAL) == {};
    BoundedHolds(INITIAL, actions);
    var s := Run(actions);
    assert Live(s, id) <==> id in LiveTasks(s);
    if Live(s, id) {
      assert s.tasks.values[s.index[id]] == id;
    }
  }

  // Without the bound.

  // What holds of the table in every run: each task is entered once, and stores its index modulo
  // 65536; an entry whose index fits into 16 bits belongs to a live task.
  ghost predicate Stored(s: Sched) {
    && Handles.Sound(s.tasks)
    && (forall i :: i in s.tasks.values ==>
          s.tasks.values[i] in s.index && s.index[s.tasks.values[i]] == Truncate(i))
    && (forall i, k :: i in s.tasks.values && k in s.tasks.values && s.tasks.values[i] == s.tasks.values[k] ==> i == k)
    && LowEntriesLive(s)
  }

  ghost predicate LowEntriesLive(s: Sched) {
    forall i :: i in s.tasks.values && i < 65536 ==> Live(s, s.tasks.values[i])
  }

  lemma StoredStep(s: Sched, a: Action)
    requires Inv(s) && Stored(s)
    ensures Stored(Step(s, a))
  {
    hide QueuesOk, Known, WaitsOk, CurrentOk, CountOk, Step, LiveTasks, Handles.Sound, Truncate;
    if !Enabled(s, a) {
      Disabled(s, a);
    } else if a.Spawn? {
      NewEntry(s, a.id);
    } else if a.Done? {
      RemovedEntry(s);
    } else {
      TableUntouched(s, a);
    }
  }

  lemma NewEntry(s: Sched, id: Id)
    requires Inv(s) && Stored(s) && Enabled(s, Spawn(id))
    ensures Stored(Step(s, Spawn(id)))
  {
    hide QueuesOk, WaitsOk, CurrentOk, CountOk, ScheduleNew, Handles.Sound, Handles.Insert, Handles.Fresh, Truncate,
      Within, LowEntriesLive;
    SpawnFrame(s, id);
    Handles.InsertIsSound(s.tasks, id);
    NewEntryLives(s, Step(s, Spawn(id)), id);
  }

  lemma NewEntryLives(s: Sched, t: Sched, id: Id)
    requires LowEntriesLive(s) && t.state == s.state[id := Ready]
    requires t.tasks.values == s.tasks.values[Handles.Fresh(s.tasks) := id]
    ensures LowEntriesLive(t)
  {
    hide Handles.Fresh;
  }

  // What a completion does to the table.
  lemma DoneRemoves(s: Sched)
    requires Inv(s) && Stored(s) && Enabled(s, Done)
    ensures s.current.value in s.index
    ensures var t := Step(s, Done);
      var i := s.index[s.current.value];
      && (t.panicked <==> i == 0) && t.index == s.index && Handles.Sound(t.tasks)
      && t.tasks.values == if i == 0 then s.tasks.values else s.tasks.values - {i}
  {
    hide QueuesOk, WaitsOk, Handles.Remove, Handles.Sound, WakeAll, Forget, Within;
    var id := s.current.value;
    KnownTask(s, id);
    assert id in LiveTasks(s);
    AfterWakesHolds(s);
    ForgetFrame(AfterWakes(s), s.index[id]);
    if s.index[id] != 0 {
      Handles.RemoveIsSound(s.tasks, s.index[id]);
    }
  }

  lemma RemovedEntry(s: Sched)
    requires Inv(s) && Stored(s) && Enabled(s, Done)
    ensures Stored(Step(s, Done))
  {
    hide Inv, Step, Handles.Sound, Truncate, LowEntriesLive;
    InvIsKnown(s);
    DoneRemoves(s);
    LowEntriesStay(s);
  }

  // A completing task with an index below 65536 removes its own entry, and no other entry loses
  // its task.
  lemma LowEntriesStay(s: Sched)
    requires Inv(s) && Stored(s) && Enabled(s, Done)
    ensures LowEntriesLive(Step(s, Done))
  {
    hide QueuesOk, CountOk, WaitsOk, Finished, Truncate, Within, Handles.Sound;
    DoneRemoves(s);
    DoneFrame(s);
    var t := Step(s, Done);
    forall i | i in t.tasks.values && i < 65536
      ensures Live(t, t.tasks.values[i])
    {
      TruncateFits(i);
    }
  }

  lemma {:induction false} StoredHolds(s: Sched, actions: seq<Action>)
    requires Inv(s) && Stored(s)
    ensures Inv(RunFrom(s, actions)) && Stored(RunFrom(s, actions))
    decreases |actions|
  {
    hide Inv, Stored, Step;
    InvIsKnown(s);
    if actions != [] {
      StoredStep(s, actions[0]);
      StepHolds(s, actions[0]);
      StoredHolds(Step(s, actions[0]), actions[1..]);
    }
  }

  // In every run, a task that is entered at index `i` and completes stops the event loop exactly
  // when `i` is a multiple of 65536; otherwise it removes its own entry exactly when `i` fits into
  // 16 bits, and the entry of another live task exactly when it does not and the slot that the
  // truncated index names is in use.
  lemma CompletionRemoves(actions: seq<Action>, i: Handles.Index)
    requires Enabled(Run(actions), Done) && i in Run(actions).tasks.values
    requires Run(actions).current == Some(Run(actions).tasks.values[i])
    ensures var s := Run(actions);
      var t := Step(s, Done);
      && (t.panicked <==> i % 65536 == 0)
      && (i !in t.tasks.values <==> i < 65536)
      && ((exists k :: k in s.tasks.values && k !in t.tasks.values && LosesAnother(s, t, i, k))
          <==> i > 65536 && i % 65536 != 0 && i % 65536 in s.tasks.values)
  {
    hide Inv, Handles.Sound, Truncate, Step, RunFrom;
    InitialHolds();
    StoredHolds(INITIAL, actions);
    var s := Run(actions);
    DoneRemoves(s);
    TruncateFits(i);
    assert Truncate(i) == i % 65536 by { Modulo(i); }
    if i > 65536 && i % 65536 != 0 && i % 65536 in s.tasks.values {
      var k := i % 65536;
      OthersLive(s, k);
      assert k in s.tasks.values && k !in Step(s, Done).tasks.values && LosesAnother(s, Step(s, Done), i, k);
    }
  }

  // Entry `k` belongs to a task that is live, and not the one that completes at index `i`.
  predicate LosesAnother(s: Sched, t: Sched, i: Handles.Index, k: Handles.Index)
    requires i in s.tasks.values && k in s.tasks.values
  {
    s.tasks.values[k] != s.tasks.values[i] && Live(t, s.tasks.values[k])
  }

  lemma OthersLive(s: Sched, k: Handles.Index)
    requires Inv(s) && Stored(s) && Enabled(s, Done) && k in s.tasks.values && k < 65536
    requires s.current != Some(s.tasks.values[k])
    ensures Live(Step(s, Done), s.tasks.values[k])
  {
    hide QueuesOk, CountOk, WaitsOk, Finished, Truncate, Within, Handles.Sound;
    DoneFrame(s);
  }

  lemma Modulo(i: nat)
    ensures Truncate(i) == i % 65536
  {
  }

  lemma InitialHolds()
    ensures Inv(INITIAL) && Stored(INITIAL)
  {
  }

  // Both failures are reached as soon as that many tasks are live at once.

  function Spawns(n: nat): seq<Action> {
    if n == 0 then [] else Spawns(n - 1) + [Spawn(n - 1)]
  }

  // The tasks 0 to n - 1 have the indexes 1 to n.
  ghost predicate Filled(s: Sched, n: nat) {
    && !s.panicked && s.current == None && s.count == n
    && (forall id: Id :: id in s.state <==> id < n)
    && (forall id: Id :: id < n ==> s.state[id] == Ready)
    && s.tasks.chain == [] && s.tasks.size == n
    && (forall i: Handles.Index :: i in s.tasks.values <==> i <= n)
    && (forall i: Handles.Index :: i in s.tasks.values ==> s.tasks.values[i] == i - 1)
  }

  lemma {:induction false} SpawnsFill(n: nat)
    ensures Inv(Run(Spawns(n))) && Filled(Run(Spawns(n)), n)
  {
    hide Inv, Step, Filled;
    if n == 0 {
      InitialHolds();
      assert Filled(INITIAL, 0) by { NothingFilled(); }
    } else {
      SpawnsFill(n - 1);
      var s := Run(Spawns(n - 1));
      RunAppends(INITIAL, Spawns(n - 1), [Spawn(n - 1)]);
      InvIsKnown(s);
      RunOne(s, Spawn(n - 1));
      StepHolds(s, Spawn(n - 1));
      FillOne(s, n - 1);
    }
  }

  lemma NothingFilled()
    ensures Filled(INITIAL, 0)
  {
  }

  lemma FillOne(s: Sched, n: nat)
    requires Known(s) && Filled(s, n)
    ensures Filled(Step(s, Spawn(n)), n + 1)
  {
    hide Within, Truncate, ScheduleNew;
    SpawnFrame(s, n);
  }

  // A run after which `n` tasks are live and the one with index `n` is being polled.
  lemma PollLast(n: nat) returns (b: seq<Action>)
    requires n > 0
    ensures var s := Run(b);
      && Enabled(s, Done) && s.current == Some(n - 1) && |LiveTasks(s)| == n
      && (forall i: Handles.Index :: i in s.tasks.values <==> i <= n)
      && (forall i: Handles.Index :: i in s.tasks.values ==> s.tasks.values[i] == i - 1 && Live(s, i - 1))
  {
    hide Inv, Step, Calm, RunFrom, Known, Queued, Taken;
    SpawnsFill(n);
    InitialHolds();
    InvIsKnown(INITIAL);
    var s := Run(Spawns(n));
    LastIsQueued(s, n);
    var c := Reach(s, n - 1);
    var u := RunFrom(s, c);
    RunHolds(s, c);
    CalmState(s, u, n - 1);
    NextIsTaken(u, n - 1);
    b := Spawns(n) + (c + [Take]);
    RunAppends(INITIAL, Spawns(n), c + [Take]);
    RunAppends(s, c, [Take]);
    RunOne(u, Take);
    StepHolds(u, Take);
    StillFilled(s, u, n);
  }

  lemma LastIsQueued(s: Sched, n: nat)
    requires n > 0 && Inv(s) && Filled(s, n)
    ensures Known(s) && n - 1 in s.state && s.state[n - 1] == Ready
    ensures n - 1 in s.fill || n - 1 in s.io || n - 1 in s.cpu
  {
    hide Queued, Known;
    assert Queues(s, n - 1);
    InQueue(s, n - 1);
  }

  lemma StillFilled(s: Sched, u: Sched, n: nat)
    requires n > 0 && Filled(s, n) && Calm(s, u, n - 1) && Inv(u) && IsNext(u, n - 1)
    ensures var t := Step(u, Take);
      && t.tasks.values == s.tasks.values && !t.panicked && n - 1 !in t.cpu && |LiveTasks(t)| == n
      && forall id: Id :: id < n ==> Live(t, id)
  {
    hide Taken, Queued, WaitsOk, LiveTasks;
    TakeFrame(u);
    NextIsTaken(u, n - 1);
    var t := Step(u, Take);
    StepHolds(u, Take);
    QueuesHere(t, n - 1);
    InQueue(t, n - 1);
  }

  // With 65536 live tasks, the completion of the last one stops the event loop.
  lemma IndexPanics()
    ensures exists b :: Enabled(Run(b), Done) && |LiveTasks(Run(b))| == 65536 && Step(Run(b), Done).panicked
  {
    hide Run, Step, LiveTasks;
    var b := PollLast(65536);
    CompletionRemoves(b, 65536);
    assert Enabled(Run(b), Done) && |LiveTasks(Run(b))| == 65536 && Step(Run(b), Done).panicked;
  }

  // With one more, it removes the entry of the first task, which is live.
  lemma WrongEntryIsRemoved()
    ensures exists b :: |LiveTasks(Run(b))| == 65537 && LosesFirst(Run(b))
  {
    hide Inv, Step, Run, LiveTasks, LosesFirst;
    var b := PollLast(65537);
    InitialHolds();
    StoredHolds(INITIAL, b);
    assert Run(b) == RunFrom(INITIAL, b) by { RunIs(b); }
    FirstEntryGoes(Run(b));
    assert |LiveTasks(Run(b))| == 65537 && LosesFirst(Run(b));
  }

  lemma RunIs(b: seq<Action>)
    ensures Run(b) == RunFrom(INITIAL, b)
  {
  }

  // Task 65536 completes and stays in the table; task 0 is live and is lost.
  predicate LosesFirst(s: Sched) {
    && Known(s) && Enabled(s, Done) && s.current == Some(65536)
    && var t := Step(s, Done);
       && Live(t, 0) && 0 in s.tasks.values.Values && 0 !in t.tasks.values.Values
       && !Live(t, 65536) && 65536 in t.tasks.values.Values
  }

  lemma FirstEntryGoes(s: Sched)
    requires Inv(s) && Stored(s) && Enabled(s, Done) && s.current == Some(65536)
    requires forall i: Handles.Index :: i in s.tasks.values <==> i <= 65537
    requires forall i: Handles.Index :: i in s.tasks.values ==> s.tasks.values[i] == i - 1 && Live(s, i - 1)
    ensures LosesFirst(s)
  {
    hide Finished, LiveTasks, QueuesOk, CountOk, WaitsOk, Within, Handles.Sound, LowEntriesLive;
    DoneRemoves(s);
    DoneFrame(s);
    assert s.tasks.values[1] == 0 && s.tasks.values[65537] == 65536;
    assert Step(s, Done).tasks.values[65537] == 65536;
  }
}
