// The object that schedules tasks.

module Scheduling {
  import opened Bytes
  import opened SchedulerSpec
  import opened SchedulerSystem
  import opened SchedulerInvariant
  import opened SchedulerFairness
  import opened HandleTables
  import Spec = SchedulerSpec
  import Runs = SchedulerRuns
  import Handles = HandleTableSpec

  class TaskState {
    var state: map<Id, TaskReadyState>
    var index: map<Id, nat>
    var joining: map<Id, seq<Waiter>>
    const tasks: HandleTable<Id>
    var count: nat
    var fill: seq<Id>
    var io: seq<Id>
    var cpu: seq<Id>
    var lastCpu: bool
    var current: Option<Id>
    var high: set<Id>
    var panicked: bool

    ghost predicate Valid()
      reads this, tasks
    {
      tasks.Valid() && Known(Value())
    }

    ghost function Value(): Sched
      reads this, tasks
    {
      Sched(state, index, joining, tasks.Value(), count, fill, io, cpu, lastCpu, current, high, panicked)
    }

    constructor ()
      ensures Valid() && Value() == INITIAL && fresh(tasks)
    {
      tasks := new HandleTable();
      state, index, joining, count := map[], map[], map[], 0;
      fill, io, cpu, lastCpu := [], [], [], false;
      current, high, panicked := None, {}, false;
    }

    method ScheduleIoInternal(id: Id)
      modifies this`io, this`fill
      ensures Value() == Enqueue(old(Value()), id)
    {
      if current.Some? && current.value in high {
        io := io + [id];
      } else {
        fill := fill + [id];
      }
    }

    // Enters a new task into the table. It stores the index that the table gives it as 16 bits.
    method ScheduleNew(id: Id)
      requires Valid()
      modifies this, tasks
      ensures Valid() && Value() == Spec.ScheduleNew(old(Value()), id)
    {
      hide Known, FreeList, Content, Truncate, Handles.Insert, Handles.Fresh;
      SpawnKnown(Value(), id);
      var i := tasks.InsertFn(_ => id);
      index := index[id := Truncate(i)];
      state := state[id := Ready];
      joining := joining[id := []];
      count := count + 1;
      ScheduleIoInternal(id);
    }

    method ScheduleIo(id: Id)
      requires id in state
      modifies this`state, this`io, this`fill
      ensures Value() == Spec.ScheduleIo(old(Value()), id)
    {
      match state[id] {
        case Complete =>
        case Running =>
          state := state[id := Ready];
          ScheduleIoInternal(id);
        case Suspend =>
          state := state[id := Ready];
          ScheduleIoInternal(id);
        case Ready =>
        case Aborted =>
      }
    }

    method ScheduleCpu(id: Id)
      requires id in state
      modifies this`state, this`cpu
      ensures Value() == Spec.ScheduleCpu(old(Value()), id)
    {
      match state[id] {
        case Complete =>
        case Running =>
          state := state[id := Ready];
          cpu := cpu + [id];
        case Suspend =>
          state := state[id := Ready];
          cpu := cpu + [id];
        case Ready =>
        case Aborted =>
      }
    }

    // Wakes the tasks that wait for a task, and empties its list.
    method WakeJoining(id: Id)
      requires id in joining
      modifies this`state, this`io, this`fill, this`joining
      ensures Value() == WakeAll(old(Value()).(joining := old(joining)[id := []]), old(joining)[id])
    {
      hide Spec.ScheduleIo;
      ghost var s := Value().(joining := joining[id := []]);
      var rest := joining[id];
      joining := joining[id := []];
      while rest != []
        invariant WakeAll(Value(), rest) == WakeAll(s, old(joining)[id])
        decreases |rest|
      {
        if rest[0].task in state {
          ScheduleIo(rest[0].task);
        }
        rest := rest[1..];
      }
    }

    method ForgetTask(i: nat)
      requires tasks.Valid()
      modifies this`count, this`panicked, tasks
      ensures tasks.Valid() && Value() == Forget(old(Value()), i)
    {
      hide FreeList, Content, Handles.Remove;
      if i == 0 {
        panicked := true;
        return;
      }
      var _ := tasks.Remove(i);
      if count == 0 {
        panicked := true;
      } else {
        count := count - 1;
      }
    }

    // Completes a task: whoever waits for it is woken, and the table forgets it.
    method CompleteTask(id: Id)
      requires Valid() && id in state
      modifies this, tasks
      ensures tasks.Valid() && Value() == Spec.CompleteTask(old(Value()), id)
    {
      hide WakeAll, FreeList, Content, Forget, Within;
      ghost var s := Value();
      state := state[id := Complete];
      WakeJoining(id);
      assert Value() == WakeAll(MarkComplete(s, id), s.joining[id]);
      ForgetTask(index[id]);
    }

    method PrepareCohort()
      modifies this`io, this`fill
      ensures Value() == Spec.PrepareCohort(old(Value()))
    {
      if io == [] {
        io, fill := fill, io;
      }
    }

    method GetReady() returns (task: Option<Id>)
      requires Valid()
      modifies this`io, this`cpu, this`state, this`lastCpu
      ensures (task, Value()) == Spec.GetReady(old(Value()))
    {
      if io != [] {
        var id := io[0];
        io := io[1..];
        if state[id] != Aborted && state[id] != Complete {
          state := state[id := Running];
        }
        lastCpu := false;
        return Some(id);
      }
      if lastCpu {
        lastCpu := false;
        return None;
      }
      if cpu != [] {
        var id := cpu[0];
        cpu := cpu[1..];
        if state[id] != Aborted {
          state := state[id := Running];
        }
        lastCpu := true;
        return Some(id);
      }
      lastCpu := false;
      return None;
    }

    method AbortTask(id: Id)
      requires id in state && state[id] != Running
      modifies this`state, this`io, this`fill
      ensures Value() == Spec.AbortTask(old(Value()), id)
    {
      match state[id] {
        case Suspend =>
          state := state[id := Aborted];
          ScheduleIoInternal(id);
        case Running =>
          assert false;
        case Ready =>
          state := state[id := Aborted];
        case Aborted =>
        case Complete =>
      }
    }

    method SetHighPriority(on: bool)
      requires current.Some?
      modifies this`high
      ensures Value() == SetHigh(old(Value()), on)
    {
      if on {
        high := high + {current.value};
      } else {
        high := high - {current.value};
      }
    }

    // The current task polls a join handle.
    method PollJoin(target: Id, key: nat)
      requires Valid() && target in state && current.Some?
      modifies this`state, this`io, this`fill, this`joining
      ensures Value() == Join(old(Value()), target, key)
    {
      if state[current.value] == Aborted {
        WakeJoining(target);
      } else if state[target] != Complete {
        joining := joining[target := Register(joining[target], Waiter(key, current.value))];
      }
    }

    method DropJoinHandle(target: Id, key: nat)
      requires target in joining
      modifies this`joining
      ensures Value() == Unjoin(old(Value()), target, key)
    {
      joining := joining[target := Unregister(joining[target], key)];
    }

    // What the polled task does.
    method Act(a: Action)
      requires Valid() && Runs.Inside(a)
      modifies this, tasks
      ensures Valid() && Value() == Step(old(Value()), a)
    {
      hide FreeList, Spec.ScheduleNew, Spec.ScheduleIo, Spec.ScheduleCpu, Spec.AbortTask, Join, Within;
      ghost var s := Value();
      assert Known(Step(s, a));
      if panicked {
        return;
      }
      match a {
        case Spawn(id) =>
          if id !in state {
            ScheduleNew(id);
          }
        case Wake(id) =>
          if id in state {
            ScheduleIo(id);
          }
        case WakeCpu(id) =>
          if id in state {
            ScheduleCpu(id);
          }
        case Abort(id) =>
          if id in state && state[id] != Running {
            AbortTask(id);
          }
        case SetPriority(on) =>
          if current.Some? {
            SetHighPriority(on);
          }
        case JoinTask(target, key) =>
          if target in state && current.Some? {
            PollJoin(target, key);
          }
        case DropJoin(target, key) =>
          if target in state {
            DropJoinHandle(target, key);
          }
      }
    }

    method Behave(acts: seq<Action>)
      requires Valid() && Runs.AllInside(acts)
      modifies this, tasks
      ensures Valid() && Value() == RunFrom(old(Value()), acts)
    {
      hide Known, FreeList, Step;
      ghost var s := Value();
      var rest := acts;
      while rest != []
        invariant Runs.AllInside(rest) && Valid() && RunFrom(Value(), rest) == RunFrom(s, acts)
        decreases |rest|
      {
        Act(rest[0]);
        rest := rest[1..];
      }
    }

    // The end of a poll.
    method EndPoll(id: Id, done: bool)
      requires Valid() && current == Some(id)
      modifies this, tasks
      ensures Valid() && Value() == if done then Finished(old(Value())) else EndPending(old(Value()))
    {
      hide FreeList, Content, Spec.CompleteTask, Within;
      FinishedIsKnown(Value());
      PendingIsKnown(Value());
      if done {
        CompleteTask(id);
      } else {
        high := high - {id};
        if state[id] == Running {
          state := state[id := Suspend];
        }
      }
      current := None;
    }

    // Polls a task that was taken from a queue.
    method PollTask(id: Id, script: Script)
      requires Valid() && id in state && current == None && Runs.AllInside(script.acts)
      modifies this, tasks
      ensures Valid() && Known(old(Value()).(current := Some(id)))
      ensures Value() == if old(state[id]) == Complete then old(Value())
          else PollCurrent(old(Value()).(current := Some(id)), script)
    {
      hide FreeList, RunFrom, Finished, EndPending, Within;
      ghost var s := Value().(current := Some(id));
      if state[id] == Complete {
        return;
      }
      current := Some(id);
      Behave(script.acts);
      StaysCurrent(s, script.acts);
      EndPoll(id, script.done);
    }

    method TakeAndPoll(script: Script) returns (task: Option<Id>)
      requires Valid() && current == None && Runs.AllInside(script.acts)
      modifies this, tasks
      ensures Valid() && (task, Value()) == Turn(old(Value()), script)
    {
      hide FreeList, PollCurrent, Within;
      TakenIsKnown(Value());
      ReadyIsKnown(Value());
      task := GetReady();
      if task.Some? {
        PollTask(task.value, script);
      }
    }

    // The inner loop of the event loop, for at most `limit` rounds.
    method PollReady(scripts: Scripts, limit: nat) returns (taken: seq<Id>, ended: bool)
      requires Valid() && current == None
      modifies this, tasks
      ensures Valid() && (Value(), taken, ended) == Rounds(old(Value()), scripts, 0, limit)
    {
      hide Known, FreeList, Turn;
      ghost var d := Rounds(Value(), scripts, 0, limit);
      taken, ended := [], false;
      var k := 0;
      assert [] + d.1 == d.1;
      while k < limit && !ended
        invariant Valid() && k <= limit && (!ended ==> current == None)
        invariant !ended ==> var r := Rounds(Value(), scripts, k, limit - k); d == (r.0, taken + r.1, r.2)
        invariant ended ==> d == (Value(), taken, true)
        decreases limit - k, !ended
      {
        ghost var s := Value();
        var task := TakeAndPoll(scripts(k));
        TurnIsIdle(s, scripts(k));
        if task.None? {
          assert taken + [] == taken;
          ended := true;
        } else if panicked {
          taken := taken + [task.value];
          ended := true;
        } else {
          ghost var rest := Rounds(Value(), scripts, k + 1, limit - k - 1).1;
          assert taken + ([task.value] + rest) == taken + [task.value] + rest;
          taken := taken + [task.value];
          k := k + 1;
        }
      }
      assert !ended ==> taken + [] == taken;
    }
  }
}
