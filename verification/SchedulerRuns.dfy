// Safety and reachability over whole runs of the scheduler.

module SchedulerRuns {
  import opened Bytes
  import opened SchedulerSpec
  import opened SchedulerSystem
  import opened SchedulerInvariant
  import Handles = HandleTableSpec

  // In every reachable state a task occurs at most once in the three ready queues: a ready task
  // once, a running or suspended one not at all; at most one task runs; and the count is the
  // number of tasks that are not complete.
  lemma QueuesAndCount(actions: seq<Action>, id: Id)
    ensures var s := Run(actions);
      && Queued(s)[id] <= 1
      && (id in s.state && s.state[id] == Ready ==> Queued(s)[id] == 1)
      && (id in s.state && s.state[id] in {Running, Suspend} ==> Queued(s)[id] == 0)
      && (id in s.state && s.state[id] == Running ==> s.current == Some(id))
      && (id in s.high ==> s.current == Some(id) || !Live(s, id))
      && (!s.panicked ==> s.count == |LiveTasks(s)|)
  {
    hide Queued, Run;
    ReachableHolds(actions);
    assert Queues(Run(actions), id);
  }

  // What a task may do while it is polled.
  predicate Inside(a: Action) {
    !a.Prepare? && !a.Take? && !a.Pending? && !a.Done?
  }

  predicate AllInside(acts: seq<Action>) {
    forall i :: 0 <= i < |acts| ==> Inside(acts[i])
  }

  // A complete task stays complete.

  lemma StaysComplete(s: Sched, a: Action, id: Id)
    requires Inv(s) && id in s.state && s.state[id] == Complete
    ensures id in Step(s, a).state && Step(s, a).state[id] == Complete
  {
    hide Queued, QueuesOk, CountOk, Finished, Taken, WakeAll, Known, Enqueue;
    KeepsState();
    if Enabled(s, a) {
      match a {
        case Spawn(x) => SpawnFrame(s, x);
        case Take => TakenState(s);
        case Done => DoneFrame(s);
        case JoinTask(target, _) =>
          KnownTask(s, target);
          JoiningHolds(s, target, []);
          WakeAllHolds(s.(joining := s.joining[target := []]), s.joining[target]);
        case _ =>
      }
    }
  }

  lemma KeepsState()
    ensures forall t: Sched, id: Id :: Enqueue(t, id).state == t.state
  {
  }

  lemma {:induction false} CompleteForever(s: Sched, b: seq<Action>, id: Id)
    requires Inv(s) && id in s.state && s.state[id] == Complete
    ensures id in RunFrom(s, b).state && RunFrom(s, b).state[id] == Complete
    ensures Inv(RunFrom(s, b)) && RunFrom(s, b).joining[id] == []
    decreases |b|
  {
    hide Queued, QueuesOk, CountOk, Step, CurrentOk;
    if b != [] {
      StaysComplete(s, b[0], id);
      StepHolds(s, b[0]);
      CompleteForever(Step(s, b[0]), b[1..], id);
    }
  }

  // A queued task can be reached by polls that all return `Pending`.

  function Bit(b: bool): nat {
    if b then 1 else 0
  }

  // What polls that return `Pending` leave alone.
  ghost predicate Calm(s: Sched, t: Sched, id: Id) {
    && t.index == s.index && t.joining == s.joining && t.tasks == s.tasks && t.count == s.count
    && t.panicked == s.panicked && t.state.Keys == s.state.Keys
    && (id in s.state ==> t.state[id] == s.state[id])
    && forall x :: x in s.state && t.state[x] == Complete ==> s.state[x] == Complete
  }

  lemma CalmTrans(s: Sched, t: Sched, u: Sched, id: Id)
    requires Calm(s, t, id) && Calm(t, u, id)
    ensures Calm(s, u, id)
  {
  }

  // `id` is the task that `get_ready` returns next.
  predicate IsNext(s: Sched, id: Id) {
    Known(s) && s.current == None && !s.panicked && GetReady(s).0 == Some(id)
  }

  lemma ReachPending(s: Sched, id: Id)
    requires Known(s) && !s.panicked && s.current.Some? && id in s.state && s.state[id] != Running
    ensures var t := Step(s, Pending);
      && Calm(s, t, id) && t.current == None
      && t.fill == s.fill && t.io == s.io && t.cpu == s.cpu && t.lastCpu == s.lastCpu
  {
  }

  lemma ReachTake(s: Sched, id: Id)
    requires Known(s) && !s.panicked && s.current == None && id in s.state && GetReady(s).0 != Some(id)
    ensures Calm(s, Step(s, Take), id) && Step(s, Take) == Taken(s)
  {
    hide Taken, Within;
    TakeFrame(s);
  }

  lemma ReachPrepare(s: Sched, id: Id)
    requires Known(s) && !s.panicked && s.current == None
    ensures Calm(s, Step(s, Prepare), id) && Step(s, Prepare) == PrepareCohort(s)
  {
  }

  ghost function ToReach(s: Sched): nat {
    3 * |s.fill| + 2 * |s.io| + 3 * |s.cpu| + Bit(s.lastCpu) + Bit(s.current.Some?)
  }

  // The step to take on the way to `id`.
  function Towards(s: Sched, id: Id): Action {
    if s.current.Some? then Pending
    else if s.io == [] && id in s.fill then Prepare
    else Take
  }

  lemma QueuedIsKnown(s: Sched, id: Id)
    requires Known(s) && (id in s.fill || id in s.io || id in s.cpu)
    ensures id in s.state
  {
  }

  // It is closer, and `id` is still queued where it was.
  lemma TowardsIsCloser(s: Sched, id: Id)
    requires Known(s) && !s.panicked && (id in s.fill || id in s.io || id in s.cpu) && s.state[id] != Running
    requires !IsNext(s, id)
    ensures var t := Step(s, Towards(s, id));
      && Calm(s, t, id) && ToReach(t) < ToReach(s) && (id in t.fill || id in t.io || id in t.cpu)
      && (id in t.fill || id in t.io ==> id in s.fill || id in s.io)
  {
    hide Taken, Step, Within, Calm;
    QueuedIsKnown(s, id);
    if s.current.Some? {
      ReachPending(s, id);
    } else if s.io == [] && id in s.fill {
      ReachPrepare(s, id);
    } else {
      ReachTake(s, id);
      TakeFrame(s);
    }
  }

  lemma {:induction false} Reach(s: Sched, id: Id) returns (b: seq<Action>)
    requires Known(s) && !s.panicked && (id in s.fill || id in s.io || id in s.cpu) && s.state[id] != Running
    ensures var u := RunFrom(s, b);
      && Calm(s, u, id) && IsNext(u, id) && (id !in s.fill && id !in s.io ==> u.io == [])
    decreases ToReach(s)
  {
    hide Towards, Calm, Step, Known, ToReach;
    if IsNext(s, id) {
      b := [];
      CalmSelf(s, id);
      NextFromIo(s, id);
    } else {
      var a := Towards(s, id);
      TowardsIsCloser(s, id);
      var t := Step(s, a);
      StillThere(s, t, id);
      var rest := Reach(t, id);
      b := [a] + rest;
      assert b[1..] == rest;
      CalmTrans(s, t, RunFrom(t, rest), id);
    }
  }

  lemma CalmSelf(s: Sched, id: Id)
    ensures Calm(s, s, id)
  {
  }

  lemma StillThere(s: Sched, t: Sched, id: Id)
    requires Known(s) && (id in s.fill || id in s.io || id in s.cpu) && Calm(s, t, id)
    ensures id in s.state && id in t.state && t.state[id] == s.state[id] && t.panicked == s.panicked
  {
  }

  lemma NextFromIo(s: Sched, id: Id)
    requires IsNext(s, id)
    ensures s.io != [] ==> id in s.io
  {
    if s.io != [] {
      assert s.io[0] in s.io;
    }
  }

  // Unless it is complete, the next task is then polled.
  lemma NextIsTaken(s: Sched, id: Id)
    requires IsNext(s, id) && id in s.state && s.state[id] != Complete
    ensures Step(s, Take).current == Some(id)
    ensures Step(s, Take).state == s.state[id := if s.state[id] == Aborted then Aborted else Running]
  {
    hide Taken, Within;
    TakeFrame(s);
  }

  lemma ReachAndTake(s: Sched, id: Id) returns (b: seq<Action>)
    requires Inv(s) && !s.panicked && Queued(s)[id] > 0 && Live(s, id)
    ensures RunFrom(s, b).current == Some(id)
  {
    hide Known, Calm, Step, Queued, Taken;
    InQueue(s, id);
    assert Queues(s, id);
    var c := Reach(s, id);
    var u := RunFrom(s, c);
    assert id in u.state && u.state[id] == s.state[id] by { CalmState(s, u, id); }
    NextIsTaken(u, id);
    b := c + [Take];
    RunAppends(s, c, [Take]);
    RunOne(u, Take);
  }

  lemma CalmState(s: Sched, t: Sched, id: Id)
    requires Calm(s, t, id) && id in s.state
    ensures id in t.state && t.state[id] == s.state[id] && t.panicked == s.panicked
  {
  }

  // Aborted, and in no queue.
  ghost predicate Shed(s: Sched, id: Id) {
    id in s.state && s.state[id] == Aborted && Queued(s)[id] == 0
  }

  // And not running either.
  ghost predicate Stuck(s: Sched, id: Id) {
    Shed(s, id) && s.current != Some(id)
  }

  // Nothing queues such a task again.

  lemma ShedSame(s: Sched, t: Sched, id: Id)
    requires Shed(s, id) && id in t.state && t.state[id] == Aborted
    requires t.fill == s.fill && t.io == s.io && t.cpu == s.cpu
    ensures Shed(t, id)
  {
    hide Queued;
    SameQueued(s, t);
  }

  lemma ShedThroughSpawn(s: Sched, x: Id, id: Id)
    requires x !in s.state && Shed(s, id)
    ensures Shed(ScheduleNew(s, x), id)
  {
    hide Queued, NewTask, Enqueue;
    SpawnFrame(s, x);
    SameQueued(s, NewTask(s, x)) by { hide *; NewTaskQueues(s, x); }
    EnqueueAdds(NewTask(s, x), x);
  }

  lemma NewTaskQueues(s: Sched, id: Id)
    ensures NewTask(s, id).fill == s.fill && NewTask(s, id).io == s.io && NewTask(s, id).cpu == s.cpu
  {
  }

  lemma ShedThroughWake(s: Sched, x: Id, id: Id)
    requires x in s.state && Shed(s, id)
    ensures Shed(ScheduleIo(s, x), id)
  {
    hide Queued;
    SameQueued(s, WithState(s, x, Ready));
    EnqueueAdds(WithState(s, x, Ready), x);
  }

  lemma ShedThroughCpu(s: Sched, x: Id, id: Id)
    requires x in s.state && Shed(s, id)
    ensures Shed(ScheduleCpu(s, x), id)
  {
    hide Queued;
    if s.state[x] == Running || s.state[x] == Suspend {
      CpuAdds(s, ScheduleCpu(s, x), x);
    }
  }

  lemma ShedThroughAbort(s: Sched, x: Id, id: Id)
    requires x in s.state && Shed(s, id)
    ensures Shed(AbortTask(s, x), id)
  {
    hide Queued;
    SameQueued(s, WithState(s, x, Aborted));
    EnqueueAdds(WithState(s, x, Aborted), x);
  }

  lemma {:induction false} ShedThroughWakes(s: Sched, waiters: seq<Waiter>, id: Id)
    requires Shed(s, id)
    ensures Shed(WakeAll(s, waiters), id)
    decreases |waiters|
  {
    hide Stuck, ScheduleIo;
    if waiters != [] {
      var x := waiters[0].task;
      if x in s.state {
        ShedThroughWake(s, x, id);
      }
      ShedThroughWakes(if x in s.state then ScheduleIo(s, x) else s, waiters[1..], id);
    }
  }

  lemma ShedThroughJoin(s: Sched, target: Id, key: nat, id: Id)
    requires Known(s) && Enabled(s, JoinTask(target, key)) && Shed(s, id)
    ensures Shed(Join(s, target, key), id)
  {
    hide WakeAll, Queued;
    var u := s.(joining := s.joining[target := []]);
    ShedSame(s, u, id);
    ShedThroughWakes(u, s.joining[target], id);
    ShedSame(s, s.(joining := s.joining[target := Register(s.joining[target], Waiter(key, s.current.value))]), id);
  }

  lemma ShedThroughTake(s: Sched, id: Id)
    requires Known(s) && s.current == None && Shed(s, id)
    ensures Shed(Taken(s), id)
  {
    hide Queued, Taken;
    TakeFrame(s);
    InQueue(s, id);
    var t := Taken(s);
    if s.io != [] {
      assert s.io[0] in s.io;
      IoRemoves(s, t);
    } else if !s.lastCpu && s.cpu != [] {
      assert s.cpu[0] in s.cpu;
      CpuRemoves(s, t);
    } else {
      SameQueued(s, t);
    }
  }

  lemma ShedThroughDone(s: Sched, id: Id)
    requires Known(s) && s.current.Some? && s.current != Some(id) && Shed(s, id)
    ensures Shed(Finished(s), id)
  {
    hide Queued, WakeAll, Forget;
    var c := s.current.value;
    ShedSame(s, MarkComplete(s, c), id);
    ShedThroughWakes(MarkComplete(s, c), s.joining[c], id);
    ForgetFrame(AfterWakes(s), s.index[c]);
    ShedSame(AfterWakes(s), Finished(s), id);
  }

  lemma StaysShed(s: Sched, a: Action, id: Id)
    requires Known(s) && Shed(s, id) && (a.Done? ==> s.current != Some(id))
    ensures Shed(Step(s, a), id)
  {
    hide Queued, Known, ScheduleNew, ScheduleIo, ScheduleCpu, AbortTask, Join, Taken, Finished, Shed;
    if Enabled(s, a) {
      match a {
        case Spawn(x) => ShedThroughSpawn(s, x, id);
        case Wake(x) => ShedThroughWake(s, x, id);
        case WakeCpu(x) => ShedThroughCpu(s, x, id);
        case Abort(x) => ShedThroughAbort(s, x, id);
        case SetPriority(on) => ShedThroughFlags(s, id, SetHigh(s, on));
        case JoinTask(target, key) => ShedThroughJoin(s, target, key, id);
        case DropJoin(target, key) =>
          KnownTask(s, target);
          ShedThroughFlags(s, id, Unjoin(s, target, key));
        case Prepare => ShedThroughPrepare(s, id);
        case Take => ShedThroughTake(s, id);
        case Pending => ShedThroughPending(s, id);
        case Done => ShedThroughDone(s, id);
      }
    }
  }

  lemma ShedThroughFlags(s: Sched, id: Id, t: Sched)
    requires Shed(s, id) && t == s.(high := t.high, joining := t.joining)
    ensures Shed(t, id)
  {
    hide Queued;
    ShedSame(s, t, id);
  }

  lemma ShedThroughPrepare(s: Sched, id: Id)
    requires Shed(s, id)
    ensures Shed(PrepareCohort(s), id)
  {
    hide Queued;
    SwapKeeps(s);
  }

  lemma ShedThroughPending(s: Sched, id: Id)
    requires Known(s) && s.current.Some? && Shed(s, id)
    ensures Shed(EndPending(s), id)
  {
    hide Queued;
    ShedSame(s, EndPending(s), id);
  }

  // Who is polled after a step.
  lemma CurrentAfter(s: Sched, a: Action)
    requires Known(s)
    ensures var t := Step(s, a);
      && (Inside(a) ==> t.current == s.current && t.panicked == s.panicked)
      && (t.current == s.current || t.current == None || Queued(s)[t.current.value] > 0)
  {
    hide Queued, Taken, WakeAll, Forget, Enqueue, Handles.Insert;
    EnqueueKeepsCurrent();
    if Enabled(s, a) {
      match a {
        case Take =>
          TakeFrame(s);
          if Taken(s).current.Some? {
            InQueue(s, Taken(s).current.value);
          }
        case JoinTask(target, _) => WakeAllKeepsCurrent(s.(joining := s.joining[target := []]), s.joining[target]);
        case _ =>
      }
    }
  }

  lemma EnqueueKeepsCurrent()
    ensures forall t: Sched, id: Id :: Enqueue(t, id).current == t.current && Enqueue(t, id).panicked == t.panicked
  {
  }

  lemma {:induction false} WakeAllKeepsCurrent(s: Sched, waiters: seq<Waiter>)
    ensures WakeAll(s, waiters).current == s.current && WakeAll(s, waiters).panicked == s.panicked
    decreases |waiters|
  {
    hide Enqueue;
    EnqueueKeepsCurrent();
    if waiters != [] {
      var x := waiters[0].task;
      WakeAllKeepsCurrent(if x in s.state then ScheduleIo(s, x) else s, waiters[1..]);
    }
  }

  lemma StaysStuck(s: Sched, a: Action, id: Id)
    requires Known(s) && Stuck(s, id)
    ensures Stuck(Step(s, a), id)
  {
    hide Shed, Known, Step, Queued;
    StaysShed(s, a, id);
    CurrentAfter(s, a);
    assert Queued(s)[id] == 0 by { ShedQueue(s, id); }
  }

  lemma ShedQueue(s: Sched, id: Id)
    requires Shed(s, id)
    ensures Queued(s)[id] == 0
  {
  }

  // A stuck task is never polled again, whatever happens.
  lemma {:induction false} StuckForever(s: Sched, b: seq<Action>, id: Id)
    requires Known(s) && Stuck(s, id)
    ensures Stuck(RunFrom(s, b), id) && RunFrom(s, b).current != Some(id)
    decreases |b|
  {
    hide Known, Step, Queued;
    if b != [] {
      StaysStuck(s, b[0], id);
      StuckForever(Step(s, b[0]), b[1..], id);
    }
  }

  // And only stuck tasks have that fate: a live task is stuck if and only if no continuation of
  // the run polls it.
  lemma StuckIff(s: Sched, id: Id)
    requires Inv(s) && !s.panicked && Live(s, id)
    ensures Stuck(s, id) <==> forall b :: RunFrom(s, b).current != Some(id)
  {
    hide Known, Step, Queued, RunFrom;
    if Stuck(s, id) {
      forall b
        ensures RunFrom(s, b).current != Some(id)
      {
        StuckForever(s, b, id);
      }
    } else {
      var b := Polled(s, id);
      assert RunFrom(s, b).current == Some(id);
    }
  }

  lemma Polled(s: Sched, id: Id) returns (b: seq<Action>)
    requires Inv(s) && !s.panicked && Live(s, id) && !Stuck(s, id)
    ensures RunFrom(s, b).current == Some(id)
  {
    hide Known, Step, Queued, ScheduleIo, CountOk, WaitsOk;
    assert Queues(s, id);
    if s.current == Some(id) {
      b := [];
    } else if s.state[id] == Suspend {
      WakeMakesReady(s, id);
      StepHolds(s, Wake(id));
      var t := Step(s, Wake(id));
      var c := ReachAndTake(t, id);
      b := [Wake(id)] + c;
      assert b[1..] == c;
    } else {
      b := ReachAndTake(s, id);
    }
  }

  // A wake is not lost: whatever was running or suspended is ready, and so queued.
  lemma WakeMakesReady(s: Sched, id: Id)
    requires Inv(s) && !s.panicked && id in s.state
    ensures var t := Step(s, Wake(id));
      && t.panicked == s.panicked
      && (s.state[id] in {Ready, Running, Suspend} ==> Live(t, id) && t.state[id] == Ready && Queued(t)[id] == 1)
      && (s.state[id] in {Aborted, Complete} ==> t == s)
  {
    hide Queued, Known, CountOk, WaitsOk;
    StepHolds(s, Wake(id));
    ScheduleIoHolds(s, id);
    assert Queues(Step(s, Wake(id)), id);
  }

  // The task that is being polled: was it aborted before its poll began?
  ghost predicate Polling(s: Sched, id: Id, aborted: bool) {
    && !s.panicked && s.current == Some(id) && id in s.state
    && if aborted then Shed(s, id) else s.state[id] == Running || Queued(s)[id] == 1
  }

  // A step inside a poll takes nothing from the queues, and cannot abort the running task.

  lemma ScheduleAdds(s: Sched, id: Id)
    requires id in s.state
    ensures Queued(s) <= Queued(ScheduleIo(s, id)) && Queued(s) <= Queued(ScheduleCpu(s, id))
    ensures Queued(s) <= Queued(AbortTask(s, id))
  {
    hide Queued;
    SameQueued(s, WithState(s, id, Ready));
    EnqueueAdds(WithState(s, id, Ready), id);
    SameQueued(s, WithState(s, id, Aborted));
    EnqueueAdds(WithState(s, id, Aborted), id);
    CpuAdds(s, WithState(s, id, Ready).(cpu := s.cpu + [id]), id);
  }

  lemma {:induction false} WakeAllAdds(s: Sched, waiters: seq<Waiter>)
    ensures Queued(s) <= Queued(WakeAll(s, waiters))
    decreases |waiters|
  {
    hide Queued, ScheduleIo;
    if waiters != [] {
      var x := waiters[0].task;
      if x in s.state {
        ScheduleAdds(s, x);
      }
      WakeAllAdds(if x in s.state then ScheduleIo(s, x) else s, waiters[1..]);
    }
  }

  lemma InsideAdds(s: Sched, a: Action)
    requires Known(s) && Inside(a)
    ensures Queued(s) <= Queued(Step(s, a))
  {
    hide Queued, ScheduleIo, ScheduleCpu, AbortTask, WakeAll, NewTask, Enqueue, Within;
    if Enabled(s, a) {
      match a {
        case Spawn(x) =>
          SameQueued(s, NewTask(s, x)) by { hide *; NewTaskQueues(s, x); }
          EnqueueAdds(NewTask(s, x), x);
        case Wake(x) => ScheduleAdds(s, x);
        case WakeCpu(x) => ScheduleAdds(s, x);
        case Abort(x) => ScheduleAdds(s, x);
        case SetPriority(on) => SameQueued(s, SetHigh(s, on));
        case JoinTask(target, key) =>
          var u := s.(joining := s.joining[target := []]);
          SameQueued(s, u);
          WakeAllAdds(u, s.joining[target]);
          SameQueued(s,
            s.(joining := s.joining[target := Register(s.joining[target], Waiter(key, s.current.value))]));
        case DropJoin(target, key) => SameQueued(s, Unjoin(s, target, key));
      }
    }
  }

  lemma RunningOrReady(s: Sched, a: Action, id: Id)
    requires Inv(s) && Inside(a) && id in s.state && s.state[id] == Running
    ensures id in Step(s, a).state && Step(s, a).state[id] in {Running, Ready}
  {
    hide Queued, QueuesOk, CountOk, WakeAll, Known, Enqueue;
    KeepsState();
    if Enabled(s, a) {
      match a {
        case Spawn(x) => SpawnFrame(s, x);
        case JoinTask(target, _) =>
          KnownTask(s, target);
          JoiningHolds(s, target, []);
          WakeAllHolds(s.(joining := s.joining[target := []]), s.joining[target]);
        case _ =>
      }
    }
  }

  // While it is polled, a task that was aborted before stays out of the queues, and one that was
  // not is either running or queued.
  lemma PollingHolds(s: Sched, a: Action, id: Id, aborted: bool)
    requires Inv(s) && Polling(s, id, aborted) && Inside(a)
    ensures Polling(Step(s, a), id, aborted)
  {
    hide Queued, Known, CountOk, WaitsOk, QueuesOk, Step, Shed;
    var t := Step(s, a);
    CurrentAfter(s, a);
    if aborted {
      StaysShed(s, a, id);
      assert id in t.state by { ShedIsKnown(t, id); }
    } else {
      StepHolds(s, a);
      InsideAdds(s, a);
      StaysKnown(s, a, id);
      QueuesHere(t, id);
      if s.state[id] == Running {
        RunningOrReady(s, a, id);
      }
    }
  }

  lemma ShedIsKnown(s: Sched, id: Id)
    requires Shed(s, id)
    ensures id in s.state
  {
  }

  lemma QueuesHere(s: Sched, id: Id)
    requires Inv(s)
    ensures Queues(s, id)
  {
  }

  lemma StaysKnown(s: Sched, a: Action, id: Id)
    requires Inv(s) && Inside(a) && s.current == Some(id)
    ensures id in Step(s, a).state
  {
    hide Step;
    CurrentAfter(s, a);
    StepHolds(s, a);
  }

  lemma {:induction false} PollingLasts(s: Sched, acts: seq<Action>, id: Id, aborted: bool)
    requires Inv(s) && Polling(s, id, aborted) && AllInside(acts)
    ensures Inv(RunFrom(s, acts)) && Polling(RunFrom(s, acts), id, aborted)
    decreases |acts|
  {
    hide Inv, Polling, Step;
    InvIsKnown(s);
    if acts != [] {
      StepHolds(s, acts[0]);
      PollingHolds(s, acts[0], id, aborted);
      PollingLasts(Step(s, acts[0]), acts[1..], id, aborted);
    }
  }

  lemma TakeStartsPolling(s: Sched, id: Id)
    requires Inv(s) && s.current == None && Step(s, Take).current == Some(id)
    ensures id in s.state && Polling(Step(s, Take), id, s.state[id] == Aborted)
  {
    hide Queued, Taken, CountOk, WaitsOk;
    var t := Step(s, Take);
    TakeFrame(s);
    QueuesHere(s, id);
    if s.io != [] {
      IoRemoves(s, t);
    } else if !s.lastCpu && s.cpu != [] {
      CpuRemoves(s, t);
    }
  }

  // A poll that returns `Pending` strands its task if and only if the task had been aborted when
  // `get_ready` took it, whatever happened during the poll.
  lemma PendingStrandsIff(s: Sched, id: Id, acts: seq<Action>)
    requires Inv(s) && s.current == None && Step(s, Take).current == Some(id) && AllInside(acts)
    ensures id in s.state
    ensures Stuck(Step(RunFrom(Step(s, Take), acts), Pending), id) <==> s.state[id] == Aborted
  {
    hide Queued, Known, Step, QueuesOk, CountOk, WaitsOk;
    TakeStartsPolling(s, id);
    StepHolds(s, Take);
    PollingLasts(Step(s, Take), acts, id, s.state[id] == Aborted);
    PendingAfterPolling(RunFrom(Step(s, Take), acts), id, s.state[id] == Aborted);
  }

  lemma PendingAfterPolling(s: Sched, id: Id, aborted: bool)
    requires Inv(s) && Polling(s, id, aborted)
    ensures Stuck(Step(s, Pending), id) <==> aborted
  {
    hide Queued, CountOk, WaitsOk, Within;
    QueuesHere(s, id);
    SameQueued(s, Step(s, Pending));
  }

  // So every suspended task can be stranded: it is aborted, polled, and does not look.
  lemma AbortCanBeMissed(s: Sched, id: Id)
    requires Inv(s) && !s.panicked && id in s.state && s.state[id] == Suspend
    ensures exists b :: Stuck(RunFrom(s, b), id)
  {
    hide Inv, Known, Calm, Step, Queued, RunFrom;
    InvIsKnown(s);
    var t := Step(s, Abort(id));
    StepHolds(s, Abort(id));
    AbortQueues(s, id);
    InvIsKnown(t);
    var c := Reach(t, id);
    var u := RunFrom(t, c);
    RunHolds(t, c);
    CalmState(t, u, id);
    NextIsTaken(u, id);
    PendingStrandsIff(u, id, []);
    RunNone(Step(u, Take));
    TwoSteps(u, Take, Pending);
    RunAppends(t, c, [Take, Pending]);
    RunOne(s, Abort(id));
    RunAppends(s, [Abort(id)], c + [Take, Pending]);
    assert Stuck(RunFrom(s, [Abort(id)] + (c + [Take, Pending])), id);
  }

  lemma AbortQueues(s: Sched, id: Id)
    requires Inv(s) && !s.panicked && id in s.state && s.state[id] == Suspend
    ensures var t := Step(s, Abort(id));
      id in t.state && t.state[id] == Aborted && !t.panicked && (id in t.fill || id in t.io || id in t.cpu)
  {
    hide Queued, Known, QueuesOk;
    AbortFrame(s, id);
    EnqueueAdds(WithState(s, id, Aborted), id);
    InQueue(Step(s, Abort(id)), id);
  }

  lemma RunNone(s: Sched)
    requires Known(s)
    ensures RunFrom(s, []) == s
  {
  }

  lemma TwoSteps(s: Sched, a: Action, b: Action)
    requires Known(s)
    ensures RunFrom(s, [a, b]) == Step(Step(s, a), b)
  {
    hide Known, Step;
    assert [a] + [b] == [a, b];
    RunAppends(s, [a], [b]);
    RunOne(s, a);
    RunOne(Step(s, a), b);
  }

  // The contract of `yield_cpu`.

  // `get_ready` restarts a complete task exactly when it takes one from the CPU queue.
  lemma RestartsIff(s: Sched)
    requires Known(s)
    ensures (exists id :: id in s.state && s.state[id] == Complete && GetReady(s).1.state[id] != Complete)
       <==> s.io == [] && !s.lastCpu && s.cpu != [] && s.state[s.cpu[0]] == Complete
  {
    if s.io == [] && !s.lastCpu && s.cpu != [] && s.state[s.cpu[0]] == Complete {
      assert GetReady(s).1.state[s.cpu[0]] == Running;
    }
  }

  // No reachable state does that. But from every state in which a task that is in the CPU queue
  // completes against the contract, some continuation polls that complete task again.
  lemma BrokenContractRestarts(s: Sched, id: Id)
    requires Inv(s) && s.current == Some(id) && id in s.cpu && !Finished(s).panicked
    ensures Known(Finished(s)) && id in Finished(s).state && Finished(s).state[id] == Complete
    ensures exists b :: RunFrom(Finished(s), b).current == Some(id) && Restarted(RunFrom(Finished(s), b), id)
  {
    hide Known, Calm, Step, Queued, Taken, Finished, RunFrom;
    var t := Finished(s);
    FinishedIsKnown(s);
    BrokenContract(s, id);
    var c := Reach(t, id);
    var u := RunFrom(t, c);
    CalmState(t, u, id);
    RestartIsTaken(u, id);
    RunAppends(t, c, [Take]);
    RunOne(u, Take);
    assert RunFrom(t, c + [Take]).current == Some(id) && Restarted(RunFrom(t, c + [Take]), id);
  }

  predicate Restarted(s: Sched, id: Id) {
    id in s.state && s.state[id] == Running
  }

  lemma BrokenContract(s: Sched, id: Id)
    requires Inv(s) && s.current == Some(id) && id in s.cpu
    ensures var t := Finished(s);
      id in t.state && t.state[id] == Complete && id in t.cpu && id !in t.fill && id !in t.io
  {
    hide Queued, WakeAll, Forget, CountOk, WaitsOk;
    OnlyInCpu(s, id);
    WakeAllPasses(MarkComplete(s, id), s.joining[id], id);
    ForgetFrame(AfterWakes(s), s.index[id]);
  }

  lemma OnlyInCpu(s: Sched, id: Id)
    requires QueuesOk(s) && id in s.cpu
    ensures id !in s.fill && id !in s.io
  {
    assert Queues(s, id);
    assert multiset(s.cpu)[id] > 0;
  }

  // Wakes do not touch a complete task.
  lemma {:induction false} WakeAllPasses(s: Sched, waiters: seq<Waiter>, id: Id)
    requires id in s.state && s.state[id] == Complete && id in s.cpu && id !in s.fill && id !in s.io
    ensures var t := WakeAll(s, waiters);
      id in t.state && t.state[id] == Complete && id in t.cpu && id !in t.fill && id !in t.io
    decreases |waiters|
  {
    if waiters != [] {
      var x := waiters[0].task;
      WakeAllPasses(if x in s.state then ScheduleIo(s, x) else s, waiters[1..], id);
    }
  }

  lemma RestartIsTaken(s: Sched, id: Id)
    requires IsNext(s, id) && id in s.state && s.state[id] == Complete && s.io == []
    ensures Step(s, Take).current == Some(id)
    ensures Restarted(Step(s, Take), id)
  {
    hide Taken, Within;
    TakeFrame(s);
  }

  // Joining.

  lemma {:induction false} WakeAllWakes(s: Sched, waiters: seq<Waiter>, id: Id)
    requires id in s.state
    requires (exists w :: w in waiters && w.task == id) || s.state[id] !in {Running, Suspend}
    ensures id in WakeAll(s, waiters).state && WakeAll(s, waiters).state[id] !in {Running, Suspend}
    decreases |waiters|
  {
    hide Enqueue;
    KeepsState();
    if waiters != [] {
      var x := waiters[0].task;
      var t := if x in s.state then ScheduleIo(s, x) else s;
      forall w | w in waiters && w != waiters[0]
        ensures w in waiters[1..]
      {
      }
      WakeAllWakes(t, waiters[1..], id);
    }
  }

  // The step from `s` to `t` wakes a task: a suspended one is ready, and none is left suspended.
  predicate Roused(s: Sched, t: Sched, id: Id)
    requires id in s.state && id in t.state
  {
    t.state[id] !in {Running, Suspend} && (s.state[id] == Suspend ==> t.state[id] == Ready)
  }

  // A join handle that is listed with its target leaves the list only when it is dropped, when it
  // is polled again, or when its task is woken.
  lemma WaiterStays(s: Sched, a: Action, target: Id, w: Waiter)
    requires Inv(s) && target in s.joining && w in s.joining[target] && w.task in s.state
    requires a != DropJoin(target, w.key) && a != JoinTask(target, w.key)
    ensures var t := Step(s, a);
      && target in t.joining && w.task in t.state
      && (w in t.joining[target] || Roused(s, t, w.task))
  {
    hide Queued, QueuesOk, CountOk, Finished, Taken, WakeAll, Known, Enqueue, CurrentOk;
    KnownTask(s, target);
    KeepsJoining();
    if Enabled(s, a) {
      match a {
        case Spawn(x) => SpawnFrame(s, x);
        case Take =>
          TakeFrame(s);
          TakenState(s);
        case Done => DoneWakes(s, target, w);
        case JoinTask(other, _) => JoinWakes(s, a, target, w);
        case _ =>
      }
    }
  }

  lemma KeepsJoining()
    ensures forall t: Sched, id: Id :: Enqueue(t, id).state == t.state && Enqueue(t, id).joining == t.joining
  {
  }

  lemma DoneWakes(s: Sched, target: Id, w: Waiter)
    requires Inv(s) && Enabled(s, Done) && target in s.joining && w in s.joining[target] && w.task in s.state
    ensures var t := Finished(s);
      && target in t.joining && w.task in t.state
      && (if s.current == Some(target) then t.joining[target] == [] && Roused(s, t, w.task)
          else w in t.joining[target])
  {
    hide Queued, QueuesOk, CountOk, WakeAll, Forget, Handles.Remove;
    DoneFrame(s);
    if s.current == Some(target) {
      WakeAllWakes(MarkComplete(s, target), s.joining[target], w.task);
      ForgetFrame(AfterWakes(s), s.index[target]);
    }
  }

  lemma JoinWakes(s: Sched, a: Action, target: Id, w: Waiter)
    requires Inv(s) && a.JoinTask? && Enabled(s, a) && target in s.joining && w in s.joining[target]
    requires w.task in s.state && a != JoinTask(target, w.key)
    ensures var t := Join(s, a.target, a.key);
      && target in t.joining && w.task in t.state
      && (w in t.joining[target] || Roused(s, t, w.task))
  {
    hide Queued, QueuesOk, CountOk, WakeAll, CurrentOk;
    var u := s.(joining := s.joining[a.target := []]);
    JoiningHolds(s, a.target, []);
    WakeAllHolds(u, s.joining[a.target]);
    if a.target == target {
      WakeAllWakes(u, s.joining[target], w.task);
    }
  }

  lemma NameStays(s: Sched, a: Action, id: Id)
    requires Known(s) && id in s.state
    ensures id in Step(s, a).state
  {
    hide Taken, WakeAll, Forget, Enqueue, Handles.Insert;
    KeepsState();
    if Enabled(s, a) {
      match a {
        case Take => TakeFrame(s);
        case Done => FinishedNames(s);
        case JoinTask(target, _) =>
          JoinsAreKnown(s, target, []);
          WakeAllIsKnown(s.(joining := s.joining[target := []]), s.joining[target]);
        case _ =>
      }
    }
  }

  lemma FinishedNames(s: Sched)
    requires Known(s) && s.current.Some?
    ensures Finished(s).state.Keys == s.state.Keys
  {
    hide WakeAll, Forget, Within;
    JoinsAreKnown(s, s.current.value, []);
    WakeAllIsKnown(MarkComplete(s, s.current.value), s.joining[s.current.value]);
    ForgetFrame(AfterWakes(s), s.index[s.current.value]);
  }

  lemma {:induction false} NamesLast(s: Sched, b: seq<Action>, id: Id)
    requires Known(s) && id in s.state
    ensures id in RunFrom(s, b).state && id in RunFrom(s, b).joining
    decreases |b|
  {
    hide Known, Step;
    KnownTask(s, id);
    if b != [] {
      NameStays(s, b[0], id);
      NamesLast(Step(s, b[0]), b[1..], id);
    }
  }

  // Step number `k` of the run takes the handle off the list of its target and wakes its task.
  ghost predicate ReleasedAt(s: Sched, b: seq<Action>, target: Id, w: Waiter, k: nat)
    requires Known(s)
  {
    && 0 < k <= |b|
    && var (before, after) := (RunFrom(s, b[..k - 1]), RunFrom(s, b[..k]));
       && target in before.joining && w in before.joining[target]
       && target in after.joining && w !in after.joining[target]
       && w.task in before.state && w.task in after.state && Roused(before, after, w.task)
  }

  lemma RunTail(s: Sched, b: seq<Action>, k: nat)
    requires Known(s) && k < |b|
    ensures RunFrom(s, b[..k + 1]) == RunFrom(Step(s, b[0]), b[1..][..k])
  {
    hide Known, Step;
    assert b[..k + 1][1..] == b[1..][..k];
  }

  lemma ReleasedLater(s: Sched, b: seq<Action>, target: Id, w: Waiter, k: nat)
    requires Known(s) && b != [] && ReleasedAt(Step(s, b[0]), b[1..], target, w, k)
    ensures ReleasedAt(s, b, target, w, k + 1)
  {
    hide Known, Step, Roused, RunFrom;
    RunTail(s, b, k);
    RunTail(s, b, k - 1);
  }

  lemma ReleasedFirst(s: Sched, b: seq<Action>, target: Id, w: Waiter)
    requires Known(s) && b != [] && target in s.joining && w in s.joining[target] && w.task in s.state
    requires var t := Step(s, b[0]);
      target in t.joining && w !in t.joining[target] && w.task in t.state && Roused(s, t, w.task)
    ensures ReleasedAt(s, b, target, w, 1)
  {
    hide Known, Step, Roused;
    RunOne(s, b[0]);
    assert b[..1] == [b[0]] && b[..0] == [];
  }

  // The same over whole runs. A handle that is neither dropped nor polled again and is no longer
  // listed at the end, as when its target is complete, was taken off by one step of the run, and
  // that step woke the task that had polled it last.
  lemma {:induction false} JoinerIsWoken(s: Sched, b: seq<Action>, target: Id, w: Waiter)
    requires Inv(s) && target in s.joining && w in s.joining[target] && w.task in s.state
    requires DropJoin(target, w.key) !in b && JoinTask(target, w.key) !in b
    ensures var t := RunFrom(s, b);
      && target in t.state && target in t.joining
      && (t.state[target] == Complete ==> w !in t.joining[target])
      && (w !in t.joining[target] ==> exists k :: ReleasedAt(s, b, target, w, k))
    decreases |b|
  {
    hide Queued, QueuesOk, CountOk, Step, CurrentOk, ReleasedAt, Roused;
    if b != [] {
      var t := Step(s, b[0]);
      assert b[0] in b;
      WaiterStays(s, b[0], target, w);
      StepHolds(s, b[0]);
      RunHolds(t, b[1..]);
      NamesLast(t, b[1..], target);
      if w in t.joining[target] {
        JoinerIsWoken(t, b[1..], target, w);
        if k: nat :| ReleasedAt(t, b[1..], target, w, k) {
          ReleasedLater(s, b, target, w, k);
        }
      } else {
        ReleasedFirst(s, b, target, w);
      }
    }
  }

  // The order of the queues.

  predicate HasPriority(s: Sched) {
    s.current.Some? && s.current.value in s.high
  }

  // Nobody is put in front of another; what a task with priority wakes goes to the end of the running
  // cohort, and everything else to the end of the next one.
  ghost predicate Appends(s: Sched, t: Sched) {
    s.fill <= t.fill && s.io <= t.io && s.cpu <= t.cpu && if HasPriority(s) then t.fill == s.fill else t.io == s.io
  }

  lemma EnqueueAppends(s: Sched, id: Id)
    ensures Appends(s, Enqueue(s, id)) && HasPriority(Enqueue(s, id)) == HasPriority(s)
  {
  }

  lemma WithStateAppends(s: Sched, t: Sched, id: Id, st: TaskReadyState)
    requires Appends(WithState(s, id, st), t)
    ensures Appends(s, t)
  {
  }

  lemma ScheduleAppends(s: Sched, id: Id)
    requires id in s.state
    ensures Appends(s, ScheduleIo(s, id)) && Appends(s, AbortTask(s, id))
    ensures HasPriority(ScheduleIo(s, id)) == HasPriority(s)
  {
    hide Enqueue, Appends;
    EnqueueAppends(WithState(s, id, Ready), id);
    WithStateAppends(s, Enqueue(WithState(s, id, Ready), id), id, Ready);
    EnqueueAppends(WithState(s, id, Aborted), id);
    WithStateAppends(s, Enqueue(WithState(s, id, Aborted), id), id, Aborted);
    NothingAppends(s);
    WithStateAppends(s, WithState(s, id, Aborted), id, Aborted) by { NothingAppends(WithState(s, id, Aborted)); }
  }

  lemma NothingAppends(s: Sched)
    ensures Appends(s, s)
  {
  }

  lemma CpuAppends(s: Sched, id: Id)
    requires id in s.state
    ensures Appends(s, ScheduleCpu(s, id))
  {
  }

  lemma {:induction false} WakeAllAppends(s: Sched, waiters: seq<Waiter>)
    ensures Appends(s, WakeAll(s, waiters)) && HasPriority(WakeAll(s, waiters)) == HasPriority(s)
    decreases |waiters|
  {
    hide ScheduleIo, HasPriority;
    if waiters != [] {
      var x := waiters[0].task;
      if x in s.state {
        ScheduleAppends(s, x);
      }
      WakeAllAppends(if x in s.state then ScheduleIo(s, x) else s, waiters[1..]);
    }
  }

  lemma SpawnAppends(s: Sched, id: Id)
    ensures Appends(s, ScheduleNew(s, id))
  {
    hide Handles.Insert, Handles.Fresh;
  }

  lemma DoneAppends(s: Sched)
    requires Known(s) && s.current.Some?
    ensures Appends(s, Finished(s))
  {
    hide WakeAll, Forget;
    WakeAllAppends(MarkComplete(s, s.current.value), s.joining[s.current.value]);
    ForgetFrame(AfterWakes(s), s.index[s.current.value]);
  }

  lemma JoinAppends(s: Sched, target: Id, key: nat)
    requires Known(s) && Enabled(s, JoinTask(target, key))
    ensures Appends(s, Join(s, target, key))
  {
    hide WakeAll;
    WakeAllAppends(s.(joining := s.joining[target := []]), s.joining[target]);
  }

  // Every step but those of the event loop appends.
  lemma StepAppends(s: Sched, a: Action)
    requires Known(s) && !a.Prepare? && !a.Take?
    ensures Appends(s, Step(s, a))
  {
    hide ScheduleNew, ScheduleIo, ScheduleCpu, AbortTask, Join, Finished, Within;
    if Enabled(s, a) {
      match a {
        case Spawn(x) => SpawnAppends(s, x);
        case Wake(x) => ScheduleAppends(s, x);
        case WakeCpu(x) => CpuAppends(s, x);
        case Abort(x) => ScheduleAppends(s, x);
        case JoinTask(target, key) => JoinAppends(s, target, key);
        case Done => DoneAppends(s);
        case _ =>
      }
    }
  }

  // And a task that becomes ready goes to the end: of the running cohort, if a task with priority wakes
  // it, and otherwise of the next one.
  lemma WokenGoesToTheEnd(s: Sched, a: Action)
    requires Known(s) && Enabled(s, a)
    requires a.Spawn? || (a.Wake? && s.state[a.id] in {Running, Suspend}) || (a.Abort? && s.state[a.id] == Suspend)
    ensures var t := Step(s, a);
      && t.cpu == s.cpu
      && (HasPriority(s) ==> t.io == s.io + [a.id] && t.fill == s.fill)
      && (!HasPriority(s) ==> t.fill == s.fill + [a.id] && t.io == s.io)
  {
    hide Within, Handles.Insert, Handles.Fresh;
  }

  // The suspended tasks among those that wait, in the order of their handles.
  function Sleepers(state: map<Id, TaskReadyState>, waiters: seq<Waiter>): seq<Id>
    decreases |waiters|
  {
    if waiters == [] then []
    else
      var x := waiters[0].task;
      if x in state && state[x] in {Running, Suspend} then [x] + Sleepers(state[x := Ready], waiters[1..])
      else Sleepers(state, waiters[1..])
  }

  // Tasks that wait for the same task are woken in the order in which they began to wait.
  lemma {:induction false} JoinersWakeInOrder(s: Sched, waiters: seq<Waiter>)
    ensures var t := WakeAll(s, waiters);
      && (HasPriority(s) ==> t.io == s.io + Sleepers(s.state, waiters) && t.fill == s.fill)
      && (!HasPriority(s) ==> t.fill == s.fill + Sleepers(s.state, waiters) && t.io == s.io)
    decreases |waiters|
  {
    if waiters != [] {
      var x := waiters[0].task;
      JoinersWakeInOrder(if x in s.state then ScheduleIo(s, x) else s, waiters[1..]);
    }
  }

  lemma {:induction false} WakeAllKeepsJoining(s: Sched, waiters: seq<Waiter>)
    ensures WakeAll(s, waiters).joining == s.joining
    decreases |waiters|
  {
    hide Enqueue;
    KeepsJoining();
    if waiters != [] {
      WakeAllKeepsJoining(if waiters[0].task in s.state then ScheduleIo(s, waiters[0].task) else s, waiters[1..]);
    }
  }

  // An aborted task that polls a join handle wakes all that wait for the same task, in order.
  lemma AbortedJoinWakesAll(s: Sched, target: Id, key: nat)
    requires Known(s) && Enabled(s, JoinTask(target, key)) && s.state[s.current.value] == Aborted
    ensures var t := Step(s, JoinTask(target, key));
      && target in t.joining && t.joining[target] == []
      && (forall w :: w in s.joining[target] && w.task in s.state ==>
            w.task in t.state && t.state[w.task] !in {Running, Suspend})
      && t.io + t.fill == (if HasPriority(s) then s.io + Sleepers(s.state, s.joining[target]) + s.fill
                           else s.io + s.fill + Sleepers(s.state, s.joining[target]))
  {
    hide Within, WakeAll;
    KnownTask(s, target);
    var u := s.(joining := s.joining[target := []]);
    JoinsAreKnown(s, target, []);
    WakeAllKeepsJoining(u, s.joining[target]);
    JoinersWakeInOrder(u, s.joining[target]);
    forall w | w in s.joining[target] && w.task in s.state
      ensures w.task in Step(s, JoinTask(target, key)).state
        && Step(s, JoinTask(target, key)).state[w.task] !in {Running, Suspend}
    {
      WakeAllWakes(u, s.joining[target], w.task);
    }
  }

  // Over runs: who is in the next cohort stays in front of whoever comes to it later.
  lemma {:induction false} FirstReadyIsFirst(s: Sched, b: seq<Action>)
    requires Known(s) && Prepare !in b
    ensures s.fill <= RunFrom(s, b).fill
    decreases |b|
  {
    hide Known, Step, Appends;
    if b != [] {
      assert b[0] in b;
      FillGrows(s, b[0]);
      FirstReadyIsFirst(Step(s, b[0]), b[1..]);
    }
  }

  lemma FillGrows(s: Sched, a: Action)
    requires Known(s) && !a.Prepare?
    ensures s.fill <= Step(s, a).fill
  {
    hide Step, Within;
    if a.Take? {
      TakeKeepsFill(s);
    } else {
      StepAppends(s, a);
    }
  }

  lemma TakeKeepsFill(s: Sched)
    requires Known(s)
    ensures Step(s, Take).fill == s.fill
  {
  }
}
