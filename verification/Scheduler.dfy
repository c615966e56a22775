// Task scheduling: three ready queues, cohorts, joining tasks and the task table.

module SchedulerSpec {
  import opened Bytes
  import Handles = HandleTableSpec

  type Id = nat

  datatype TaskReadyState = Ready | Running | Suspend | Aborted | Complete

  // A join handle that was polled: its own identity, and the task that polled it last.
  datatype Waiter = Waiter(key: nat, task: Id)

  // `index` is the 16-bit index that each task stores, `joining` holds the join handles that wait
  // for each task, and `tasks` is the handle table. A panic of the event loop ends the runtime.
  datatype Sched = Sched(
    state: map<Id, TaskReadyState>, index: map<Id, nat>, joining: map<Id, seq<Waiter>>,
    tasks: Handles.Table<Id>, count: nat,
    fill: seq<Id>, io: seq<Id>, cpu: seq<Id>, lastCpu: bool, current: Option<Id>, high: set<Id>, panicked: bool)

  const INITIAL :=
    Sched(map[], map[], map[], Handles.Table(map[], [], 0), 0, [], [], [], false, None, {}, false)

  // `as u16`.
  function Truncate(i: nat): nat {
    i % 65536
  }

  predicate Within(q: seq<Id>, ids: set<Id>) {
    forall i :: 0 <= i < |q| ==> q[i] in ids
  }

  // The fields of a task exist together, and what the queues and `current` name exists.
  predicate Known(s: Sched) {
    && s.index.Keys == s.state.Keys && s.joining.Keys == s.state.Keys
    && Within(s.fill, s.state.Keys) && Within(s.io, s.state.Keys) && Within(s.cpu, s.state.Keys)
    && (s.current.Some? ==> s.current.value in s.state)
  }

  // `schedule_io_internal`: a high-priority task puts what it wakes into the running cohort.
  function Enqueue(s: Sched, id: Id): Sched {
    if s.current.Some? && s.current.value in s.high then s.(io := s.io + [id]) else s.(fill := s.fill + [id])
  }

  // A new task, with the index that the handle table gives it.
  function NewTask(s: Sched, id: Id): Sched {
    s.(state := s.state[id := Ready], index := s.index[id := Truncate(Handles.Fresh(s.tasks))],
       joining := s.joining[id := []], tasks := Handles.Insert(s.tasks, id), count := s.count + 1)
  }

  function ScheduleNew(s: Sched, id: Id): Sched {
    Enqueue(NewTask(s, id), id)
  }

  function WithState(s: Sched, id: Id, st: TaskReadyState): Sched {
    s.(state := s.state[id := st])
  }

  function ScheduleIo(s: Sched, id: Id): Sched
    requires id in s.state
  {
    if s.state[id] == Running || s.state[id] == Suspend then Enqueue(WithState(s, id, Ready), id) else s
  }

  function ScheduleCpu(s: Sched, id: Id): Sched
    requires id in s.state
  {
    if s.state[id] == Running || s.state[id] == Suspend then WithState(s, id, Ready).(cpu := s.cpu + [id]) else s
  }

  function WakeAll(s: Sched, waiters: seq<Waiter>): Sched
    decreases |waiters|
  {
    if waiters == [] then s
    else WakeAll(if waiters[0].task in s.state then ScheduleIo(s, waiters[0].task) else s, waiters[1..])
  }

  // `register`: a handle that is already listed gets its new task, and keeps its place.
  function Register(q: seq<Waiter>, w: Waiter): (r: seq<Waiter>)
    ensures w in r && forall x :: x in q && x.key != w.key ==> x in r
    ensures (forall x :: x in q ==> x.key != w.key) ==> r == q + [w]
  {
    if q == [] then [w] else if q[0].key == w.key then [w] + q[1..] else [q[0]] + Register(q[1..], w)
  }

  function Unregister(q: seq<Waiter>, key: nat): (r: seq<Waiter>)
    ensures forall x :: x in q && x.key != key ==> x in r
  {
    if q == [] then [] else if q[0].key == key then q[1..] else [q[0]] + Unregister(q[1..], key)
  }

  // The current task polls a join handle. If that task was aborted, it wakes all that wait, and
  // panics.
  function Join(s: Sched, target: Id, key: nat): Sched
    requires target in s.state && target in s.joining && s.current.Some? && s.current.value in s.state
  {
    if s.state[s.current.value] == Aborted then WakeAll(s.(joining := s.joining[target := []]), s.joining[target])
    else if s.state[target] == Complete then s
    else s.(joining := s.joining[target := Register(s.joining[target], Waiter(key, s.current.value))])
  }

  // A join handle is dropped.
  function Unjoin(s: Sched, target: Id, key: nat): Sched
    requires target in s.joining
  {
    s.(joining := s.joining[target := Unregister(s.joining[target], key)])
  }

  function MarkComplete(s: Sched, id: Id): Sched
    requires id in s.joining
  {
    WithState(s, id, Complete).(joining := s.joining[id := []])
  }

  // The task table forgets the task that stored index `i`. An index of zero panics.
  function Forget(s: Sched, i: nat): Sched {
    if i == 0 then s.(panicked := true)
    else
      var t := s.(tasks := Handles.Remove(s.tasks, i));
      if s.count == 0 then t.(panicked := true) else t.(count := s.count - 1)
  }

  // `complete_task`: the joining tasks are woken before the table is changed.
  function CompleteTask(s: Sched, id: Id): Sched
    requires id in s.joining && id in s.index
  {
    Forget(WakeAll(MarkComplete(s, id), s.joining[id]), s.index[id])
  }

  function PrepareCohort(s: Sched): Sched {
    if s.io == [] then s.(io := s.fill, fill := []) else s
  }

  function GetReady(s: Sched): (Option<Id>, Sched)
    requires Known(s)
  {
    if s.io != [] then
      var id := s.io[0];
      var st := s.state[id];
      (Some(id), s.(io := s.io[1..], lastCpu := false,
                    state := if st != Aborted && st != Complete then s.state[id := Running] else s.state))
    else if s.lastCpu then (None, s.(lastCpu := false))
    else if s.cpu != [] then
      var id := s.cpu[0];
      (Some(id), s.(cpu := s.cpu[1..], lastCpu := true,
                    state := if s.state[id] != Aborted then s.state[id := Running] else s.state))
    else (None, s)
  }

  // An abort of the running task panics, and is not a step of its own.
  function AbortTask(s: Sched, id: Id): Sched
    requires id in s.state
  {
    match s.state[id]
    case Suspend => Enqueue(WithState(s, id, Aborted), id)
    case Ready => WithState(s, id, Aborted)
    case _ => s
  }

  // `set_high_priority`.
  function SetHigh(s: Sched, on: bool): Sched
    requires s.current.Some?
  {
    s.(high := if on then s.high + {s.current.value} else s.high - {s.current.value})
  }

  // A poll that returned `Pending`.
  function EndPending(s: Sched): Sched
    requires s.current.Some? && s.current.value in s.state
  {
    var id := s.current.value;
    s.(high := s.high - {id}, current := None,
       state := if s.state[id] == Running then s.state[id := Suspend] else s.state)
  }
}

module SchedulerSystem {
  import opened Bytes
  import opened SchedulerSpec
  import Handles = HandleTableSpec

  datatype Action =
    | Spawn(id: Id)
    | Wake(id: Id)
    | WakeCpu(id: Id)
    | Abort(id: Id)
    | SetPriority(on: bool)
    | JoinTask(target: Id, key: nat)
    | DropJoin(target: Id, key: nat)
    | Prepare
    | Take
    | Pending
    | Done

  // `Done` of a task in the CPU queue would break the contract of `yield_cpu`: a task that has
  // put itself there returns `Pending` at once.
  predicate Enabled(s: Sched, a: Action) {
    && !s.panicked
    && match a
       case Spawn(id) => id !in s.state
       case Wake(id) => id in s.state
       case WakeCpu(id) => id in s.state
       case Abort(id) => id in s.state && s.state[id] != Running
       case SetPriority(_) => s.current.Some?
       case JoinTask(target, _) => target in s.state && s.current.Some?
       case DropJoin(target, _) => target in s.state
       case Prepare => s.current == None
       case Take => s.current == None
       case Pending => s.current.Some?
       case Done => s.current.Some? && s.current.value !in s.cpu
  }

  function Next(s: Sched, a: Action): Sched
    requires Known(s) && Enabled(s, a)
  {
    match a
    case Spawn(id) => ScheduleNew(s, id)
    case Wake(id) => ScheduleIo(s, id)
    case WakeCpu(id) => ScheduleCpu(s, id)
    case Abort(id) => AbortTask(s, id)
    case SetPriority(on) => SetHigh(s, on)
    case JoinTask(target, key) => Join(s, target, key)
    case DropJoin(target, key) => Unjoin(s, target, key)
    case Prepare => PrepareCohort(s)
    case Take => Taken(s)
    case Pending => EndPending(s)
    case Done => Finished(s)
  }

  // `get_ready`, and `poll_task` up to the poll: a complete task is not polled.
  function Taken(s: Sched): Sched
    requires Known(s)
  {
    var (task, t) := GetReady(s);
    if task.Some? && t.state[task.value] != Complete then t.(current := task) else t
  }

  // The current task completes.
  function Finished(s: Sched): Sched
    requires Known(s) && s.current.Some?
  {
    CompleteTask(s, s.current.value).(current := None)
  }

  // Runs. An action that is not enabled changes nothing.

  function Step(s: Sched, a: Action): (t: Sched)
    requires Known(s)
    ensures Known(t)
  {
    if Enabled(s, a) then
      NextIsKnown(s, a);
      Next(s, a)
    else s
  }

  function RunFrom(s: Sched, actions: seq<Action>): (t: Sched)
    requires Known(s)
    ensures Known(t)
    decreases |actions|
  {
    if actions == [] then s else RunFrom(Step(s, actions[0]), actions[1..])
  }

  function Run(actions: seq<Action>): (s: Sched)
    ensures Known(s)
  {
    RunFrom(INITIAL, actions)
  }

  lemma {:induction false} RunAppends(s: Sched, a: seq<Action>, b: seq<Action>)
    requires Known(s)
    ensures RunFrom(s, a + b) == RunFrom(RunFrom(s, a), b)
    decreases |a|
  {
    hide Known, Step;
    if a == [] {
      assert a + b == b;
    } else {
      assert (a + b)[1..] == a[1..] + b;
      RunAppends(Step(s, a[0]), a[1..], b);
    }
  }

  lemma RunOne(s: Sched, a: Action)
    requires Known(s)
    ensures RunFrom(s, [a]) == Step(s, a)
  {
    hide Known, Step;
    assert [a][1..] == [];
  }

  // Every step keeps the names known.

  lemma EnqueueIsKnown(s: Sched, id: Id)
    requires Known(s) && id in s.state
    ensures Known(Enqueue(s, id))
  {
  }

  lemma StateIsKnown(s: Sched, id: Id, st: TaskReadyState)
    requires Known(s) && id in s.state
    ensures Known(WithState(s, id, st)) && WithState(s, id, st).state.Keys == s.state.Keys
  {
    hide Within;
    assert s.state[id := st].Keys == s.state.Keys;
  }

  lemma EnqueueKeepsState(s: Sched, id: Id)
    ensures Enqueue(s, id).state == s.state
  {
  }

  lemma ScheduleIsKnown(s: Sched, id: Id)
    requires Known(s) && id in s.state
    ensures Known(ScheduleIo(s, id)) && Known(AbortTask(s, id))
    ensures ScheduleIo(s, id).state.Keys == s.state.Keys
  {
    hide Known, Enqueue, WithState;
    StateIsKnown(s, id, Ready);
    EnqueueIsKnown(WithState(s, id, Ready), id);
    EnqueueKeepsState(WithState(s, id, Ready), id);
    StateIsKnown(s, id, Aborted);
    EnqueueIsKnown(WithState(s, id, Aborted), id);
  }

  lemma CpuIsKnown(s: Sched, id: Id)
    requires Known(s) && id in s.state
    ensures Known(ScheduleCpu(s, id))
  {
  }

  lemma {:induction false} WakeAllIsKnown(s: Sched, waiters: seq<Waiter>)
    requires Known(s)
    ensures Known(WakeAll(s, waiters)) && WakeAll(s, waiters).state.Keys == s.state.Keys
    decreases |waiters|
  {
    hide Known, ScheduleIo;
    if waiters != [] {
      var id := waiters[0].task;
      if id in s.state {
        ScheduleIsKnown(s, id);
      }
      WakeAllIsKnown(if id in s.state then ScheduleIo(s, id) else s, waiters[1..]);
    }
  }

  lemma JoinsAreKnown(s: Sched, id: Id, q: seq<Waiter>)
    requires Known(s) && id in s.state
    ensures Known(s.(joining := s.joining[id := q])) && Known(MarkComplete(s, id))
  {
    hide Within;
    assert s.joining[id := q].Keys == s.joining.Keys && s.joining[id := []].Keys == s.joining.Keys;
    assert s.state[id := Complete].Keys == s.state.Keys;
  }

  lemma NewTaskIsKnown(s: Sched, id: Id)
    requires Known(s)
    ensures Known(NewTask(s, id))
  {
    hide Handles.Insert, Handles.Fresh;
    assert s.state[id := Ready].Keys == s.state.Keys + {id};
    assert s.joining[id := []].Keys == s.state.Keys + {id};
  }

  lemma TakenIsKnown(s: Sched)
    requires Known(s)
    ensures Known(Taken(s))
  {
    assert forall k :: 0 <= k < |s.io| - 1 ==> s.io[1..][k] == s.io[k + 1];
    assert forall k :: 0 <= k < |s.cpu| - 1 ==> s.cpu[1..][k] == s.cpu[k + 1];
  }

  lemma PendingIsKnown(s: Sched)
    requires Known(s) && s.current.Some?
    ensures Known(EndPending(s))
  {
    hide Within;
  }

  lemma FinishedIsKnown(s: Sched)
    requires Known(s) && s.current.Some?
    ensures Known(Finished(s))
  {
    hide WakeAll, Forget, MarkComplete, Known;
    var id := s.current.value;
    KnownTask(s, id);
    JoinsAreKnown(s, id, []);
    WakeAllIsKnown(MarkComplete(s, id), s.joining[id]);
    ForgetIsKnown(WakeAll(MarkComplete(s, id), s.joining[id]), s.index[id]);
  }

  lemma KnownTask(s: Sched, id: Id)
    requires Known(s)
    ensures id in s.state <==> id in s.index
    ensures id in s.state <==> id in s.joining
    ensures s.current == Some(id) ==> id in s.state
  {
    hide Within;
    assert s.current == Some(id) ==> s.current.value == id;
  }

  lemma ForgetIsKnown(s: Sched, i: nat)
    requires Known(s)
    ensures Known(Forget(s, i).(current := None))
  {
    hide Within, Handles.Remove;
  }

  lemma JoinIsKnown(s: Sched, target: Id, key: nat)
    requires Known(s) && target in s.state && s.current.Some?
    ensures Known(Join(s, target, key)) && Known(Unjoin(s, target, key))
  {
    hide WakeAll, Within;
    JoinsAreKnown(s, target, []);
    WakeAllIsKnown(s.(joining := s.joining[target := []]), s.joining[target]);
    JoinsAreKnown(s, target, Register(s.joining[target], Waiter(key, s.current.value)));
    JoinsAreKnown(s, target, Unregister(s.joining[target], key));
  }

  lemma NextIsKnown(s: Sched, a: Action)
    requires Known(s) && Enabled(s, a)
    ensures Known(Next(s, a))
  {
    hide Within, WakeAll, ScheduleIo, ScheduleCpu, AbortTask, NewTask, Taken, Finished, Join, EndPending, Enqueue;
    match a {
      case Spawn(id) =>
        NewTaskIsKnown(s, id);
        EnqueueIsKnown(NewTask(s, id), id) by { hide *; IsNew(s, id); }
      case Wake(id) => ScheduleIsKnown(s, id);
      case WakeCpu(id) => CpuIsKnown(s, id);
      case Abort(id) => ScheduleIsKnown(s, id);
      case SetPriority(_) =>
      case JoinTask(target, key) => JoinIsKnown(s, target, key);
      case DropJoin(target, key) => JoinsAreKnown(s, target, Unregister(s.joining[target], key));
      case Prepare =>
      case Take => TakenIsKnown(s);
      case Pending => PendingIsKnown(s);
      case Done => FinishedIsKnown(s);
    }
  }

  lemma IsNew(s: Sched, id: Id)
    ensures id in NewTask(s, id).state
  {
  }
}
