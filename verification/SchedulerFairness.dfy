// What one pass of the event loop polls.

module SchedulerFairness {
  import opened Bytes
  import opened SchedulerSpec
  import opened SchedulerSystem
  import opened SchedulerInvariant
  import opened SchedulerRuns
  import Handles = HandleTableSpec

  // The behaviour of one poll: its actions, and whether it completes the task.
  datatype Script = Script(acts: seq<Action>, done: bool)

  type Scripts = f: nat -> Script | forall k :: AllInside(f(k).acts) witness (_ => Script([], false))

  lemma {:induction false} StaysCurrent(s: Sched, acts: seq<Action>)
    requires Known(s) && AllInside(acts)
    ensures RunFrom(s, acts).current == s.current && RunFrom(s, acts).panicked == s.panicked
    decreases |acts|
  {
    hide Known, Step, Queued;
    if acts != [] {
      CurrentAfter(s, acts[0]);
      StaysCurrent(Step(s, acts[0]), acts[1..]);
    }
  }

  // One poll of the current task.
  function PollCurrent(s: Sched, script: Script): (t: Sched)
    requires Known(s) && s.current.Some? && AllInside(script.acts)
    ensures Known(t)
  {
    StaysCurrent(s, script.acts);
    var u := RunFrom(s, script.acts);
    FinishedIsKnown(u);
    PendingIsKnown(u);
    if script.done then Finished(u) else EndPending(u)
  }

  // One round of the inner loop: a ready task is taken and, unless it is complete, polled.
  function Turn(s: Sched, script: Script): (r: (Option<Id>, Sched))
    requires Known(s) && AllInside(script.acts)
    ensures Known(r.1)
  {
    TakenIsKnown(s);
    var t := Taken(s);
    (GetReady(s).0, if t.current.Some? then PollCurrent(t, script) else t)
  }

  lemma ReadyIsKnown(s: Sched)
    requires Known(s)
    ensures Known(GetReady(s).1) && GetReady(s).1.current == s.current
    ensures GetReady(s).0.Some? ==> GetReady(s).0.value in GetReady(s).1.state
  {
    assert forall k :: 0 <= k < |s.io| - 1 ==> s.io[1..][k] == s.io[k + 1];
    assert forall k :: 0 <= k < |s.cpu| - 1 ==> s.cpu[1..][k] == s.cpu[k + 1];
  }

  // Between rounds no task is current.
  lemma TurnIsIdle(s: Sched, script: Script)
    requires Known(s) && s.current == None && AllInside(script.acts)
    ensures Turn(s, script).1.current == None
  {
    hide Taken, Finished, EndPending, RunFrom;
    TakenIsKnown(s);
    TakeFrame(s);
    if Taken(s).current.Some? {
      StaysCurrent(Taken(s), script.acts);
      EndsIdle(RunFrom(Taken(s), script.acts));
    }
  }

  lemma EndsIdle(s: Sched)
    requires Known(s) && s.current.Some?
    ensures Finished(s).current == None && EndPending(s).current == None
  {
    hide CompleteTask;
  }

  // The inner loop of the event loop, for at most `limit` rounds. The results are the state, the
  // tasks that were taken, and whether the loop ended.
  function Rounds(s: Sched, scripts: Scripts, k: nat, limit: nat): (r: (Sched, seq<Id>, bool))
    requires Known(s)
    ensures Known(r.0)
    decreases limit
  {
    if limit == 0 then (s, [], false)
    else
      var (task, t) := Turn(s, scripts(k));
      if task.None? then (t, [], true)
      else if t.panicked then (t, [task.value], true)
      else
        var rest := Rounds(t, scripts, k + 1, limit - 1);
        (rest.0, [task.value] + rest.1, rest.2)
  }

  // The state after the first `n` rounds.
  function AfterRounds(s: Sched, scripts: Scripts, k: nat, n: nat): (t: Sched)
    requires Known(s)
    ensures Known(t)
    decreases n
  {
    if n == 0 then s else AfterRounds(Turn(s, scripts(k)).1, scripts, k + 1, n - 1)
  }

  function FirstOf(q: seq<Id>): seq<Id> {
    if q == [] then [] else [q[0]]
  }

  // Without priority.

  predicate Plain(a: Action) {
    Inside(a) && a != SetPriority(true)
  }

  predicate AllPlain(acts: seq<Action>) {
    forall i :: 0 <= i < |acts| ==> Plain(acts[i])
  }

  ghost predicate PlainScripts(scripts: Scripts) {
    forall k :: AllPlain(scripts(k).acts)
  }

  // No task that can be polled has priority.
  ghost predicate NoPriority(s: Sched) {
    && Known(s)
    && (forall x :: x in s.high ==> x in s.state && s.state[x] == Complete && x !in s.cpu)
    && (s.current.Some? ==> s.state[s.current.value] != Complete)
  }

  // Between polls every reachable state is like that.
  lemma IdleHasNoPriority(s: Sched)
    requires Inv(s) && s.current == None
    ensures NoPriority(s)
  {
    hide Queued;
    forall x | x in s.high
      ensures x in s.state && s.state[x] == Complete && x !in s.cpu
    {
      assert Queues(s, x);
    }
  }

  // The cohort, the current task and the flag are left alone, and the CPU queue only grows.
  ghost predicate Undisturbed(s: Sched, t: Sched) {
    t.io == s.io && t.lastCpu == s.lastCpu && t.current == s.current && s.cpu <= t.cpu
  }

  lemma UndisturbedTrans(s: Sched, t: Sched, u: Sched)
    requires Undisturbed(s, t) && Undisturbed(t, u)
    ensures Undisturbed(s, u)
  {
  }

  lemma WokenIsPlain(s: Sched, t: Sched)
    requires NoPriority(s) && Known(t) && Woken(s, t) && t.cpu == s.cpu
    ensures NoPriority(t) && Undisturbed(s, t)
  {
  }

  lemma CpuIsPlain(s: Sched, id: Id)
    requires NoPriority(s) && id in s.state
    ensures NoPriority(ScheduleCpu(s, id)) && Undisturbed(s, ScheduleCpu(s, id))
  {
    CpuIsKnown(s, id);
  }

  lemma AbortIsPlain(s: Sched, id: Id)
    requires NoPriority(s) && id in s.state
    ensures NoPriority(AbortTask(s, id)) && Undisturbed(s, AbortTask(s, id))
  {
    hide Within, AbortTask;
    ScheduleIsKnown(s, id);
    if s.state[id] in {Suspend, Ready} {
      AbortFrame(s, id);
    } else {
      AbortIgnored(s, id);
    }
  }

  lemma AbortIgnored(s: Sched, id: Id)
    requires id in s.state && s.state[id] !in {Suspend, Ready}
    ensures AbortTask(s, id) == s
  {
  }

  lemma SpawnIsPlain(s: Sched, id: Id)
    requires NoPriority(s) && id !in s.state
    ensures NoPriority(ScheduleNew(s, id)) && Undisturbed(s, ScheduleNew(s, id))
  {
    hide ScheduleNew, Within, Handles.Insert, Handles.Fresh;
    SpawnFrame(s, id);
    SpawnKnown(s, id);
  }

  lemma SpawnKnown(s: Sched, id: Id)
    requires Known(s)
    ensures Known(ScheduleNew(s, id))
  {
    hide Enqueue, NewTask, Known;
    NewTaskIsKnown(s, id);
    IsNew(s, id);
    EnqueueIsKnown(NewTask(s, id), id);
  }

  lemma JoiningIsPlain(s: Sched, target: Id, q: seq<Waiter>)
    requires NoPriority(s) && target in s.state
    ensures var t := s.(joining := s.joining[target := q]); NoPriority(t) && Undisturbed(s, t)
  {
    hide Within;
    JoinsAreKnown(s, target, q);
  }

  lemma JoinIsPlain(s: Sched, target: Id, key: nat)
    requires NoPriority(s) && target in s.state && s.current.Some?
    ensures NoPriority(Join(s, target, key)) && Undisturbed(s, Join(s, target, key))
  {
    hide WakeAll, Known, Woken, NoPriority, Undisturbed;
    IsKnown(s);
    KnownTask(s, target);
    KnownTask(s, s.current.value);
    var u := s.(joining := s.joining[target := []]);
    var w := WakeAll(u, s.joining[target]);
    JoiningIsPlain(s, target, []);
    IsKnown(u);
    WakeAllIsKnown(u, s.joining[target]);
    WakeAllWoken(u, s.joining[target]);
    WokenIsPlain(u, w);
    UndisturbedTrans(s, u, w);
    JoiningIsPlain(s, target, Register(s.joining[target], Waiter(key, s.current.value)));
    UndisturbedSelf(s);
  }

  lemma UndisturbedSelf(s: Sched)
    ensures Undisturbed(s, s)
  {
  }

  lemma PlainStep(s: Sched, a: Action)
    requires NoPriority(s) && Plain(a)
    ensures NoPriority(Step(s, a)) && Undisturbed(s, Step(s, a))
  {
    hide ScheduleIo, ScheduleCpu, AbortTask, ScheduleNew, Join, Within, Woken;
    if Enabled(s, a) {
      match a {
        case Spawn(id) => SpawnIsPlain(s, id);
        case Wake(id) =>
          ScheduleIsKnown(s, id);
          ScheduleIoWakes(s, id);
          WokenIsPlain(s, ScheduleIo(s, id));
        case WakeCpu(id) => CpuIsPlain(s, id);
        case Abort(id) => AbortIsPlain(s, id);
        case SetPriority(_) =>
        case JoinTask(target, key) => JoinIsPlain(s, target, key);
        case DropJoin(target, key) => JoiningIsPlain(s, target, Unregister(s.joining[target], key));
      }
    }
  }

  lemma {:induction false} PlainRun(s: Sched, acts: seq<Action>)
    requires NoPriority(s) && AllPlain(acts)
    ensures NoPriority(RunFrom(s, acts)) && Undisturbed(s, RunFrom(s, acts))
    decreases |acts|
  {
    hide Step, Plain;
    if acts != [] {
      var t := Step(s, acts[0]);
      PlainStep(s, acts[0]);
      PlainRun(t, acts[1..]);
      UndisturbedTrans(s, t, RunFrom(t, acts[1..]));
    }
  }

  lemma PlainDone(s: Sched)
    requires NoPriority(s) && s.current.Some?
    ensures NoPriority(Finished(s)) && Undisturbed(s.(current := None), Finished(s))
  {
    hide WakeAll, Forget, Within;
    FinishedIsKnown(s);
    var id := s.current.value;
    WakeAllWoken(MarkComplete(s, id), s.joining[id]);
    ForgetFrame(AfterWakes(s), s.index[id]);
  }

  lemma PlainPending(s: Sched)
    requires NoPriority(s) && s.current.Some?
    ensures NoPriority(EndPending(s)) && Undisturbed(s.(current := None), EndPending(s))
  {
    hide Within;
    PendingIsKnown(s);
  }

  lemma PlainPoll(s: Sched, script: Script)
    requires NoPriority(s) && s.current.Some? && AllInside(script.acts) && AllPlain(script.acts)
    ensures NoPriority(PollCurrent(s, script)) && Undisturbed(s.(current := None), PollCurrent(s, script))
  {
    hide Finished, EndPending, Known, NoPriority;
    IsKnown(s);
    PlainRun(s, script.acts);
    var u := RunFrom(s, script.acts);
    IsKnown(u);
    PlainDone(u);
    PlainPending(u);
  }

  lemma PlainTake(s: Sched)
    requires NoPriority(s) && s.current == None
    ensures NoPriority(Taken(s))
  {
    hide Taken, Within;
    TakenIsKnown(s);
    TakeFrame(s);
  }

  // What a turn takes.
  lemma PlainTurn(s: Sched, script: Script)
    requires NoPriority(s) && s.current == None && AllInside(script.acts) && AllPlain(script.acts)
    ensures var r := Turn(s, script);
      && NoPriority(r.1) && r.1.current == None
      && (s.io != [] ==> r.0 == Some(s.io[0]) && r.1.io == s.io[1..] && !r.1.lastCpu && s.cpu <= r.1.cpu)
      && (s.io == [] && !s.lastCpu && s.cpu != [] ==>
            r.0 == Some(s.cpu[0]) && r.1.io == [] && r.1.lastCpu && s.cpu[1..] <= r.1.cpu)
      && (s.io == [] && (s.lastCpu || s.cpu == []) ==> r == (None, s.(lastCpu := false)))
  {
    hide Taken, PollCurrent, Within, NoPriority;
    IsKnown(s);
    TakenIsKnown(s);
    TakeFrame(s);
    PlainTake(s);
    if Taken(s).current.Some? {
      PlainPoll(Taken(s), script);
    }
  }

  lemma IsKnown(s: Sched)
    requires NoPriority(s)
    ensures Known(s)
  {
  }

  // The cohort is taken in its order, and after it the head of the CPU queue as the cohort left
  // it, if there is one. A CPU queue that was not empty at the start keeps its order.
  lemma {:induction false} RoundsTake(s: Sched, scripts: Scripts, k: nat, limit: nat)
    requires NoPriority(s) && s.current == None && PlainScripts(scripts)
    requires limit >= |s.io| + if s.io != [] || !s.lastCpu then 2 else 1
    ensures var (t, taken, ended) := Rounds(s, scripts, k, limit);
      && ended
      && (!t.panicked ==>
            && NoPriority(t) && t.current == None && t.io == [] && !t.lastCpu
            && (s.io != [] || !s.lastCpu ==> taken == s.io + FirstOf(AfterRounds(s, scripts, k, |s.io|).cpu))
            && ((s.io != [] || !s.lastCpu) && s.cpu != [] ==> taken == s.io + [s.cpu[0]] && s.cpu[1..] <= t.cpu)
            && (s.io == [] && s.lastCpu ==> t == s.(lastCpu := false) && taken == []))
    decreases limit
  {
    hide NoPriority, Turn, Known;
    IsKnown(s);
    PlainTurn(s, scripts(k));
    var (task, t) := Turn(s, scripts(k));
    if task.Some? && !t.panicked {
      RoundsTake(t, scripts, k + 1, limit - 1);
      if s.io != [] {
        assert s.io == [s.io[0]] + s.io[1..];
        Prepend(s.io, FirstOf(AfterRounds(t, scripts, k + 1, |t.io|).cpu));
        assert s.cpu != [] ==> s.cpu[1..] <= t.cpu[1..];
      } else {
        assert [task.value] + [] == [task.value];
      }
    }
  }

  lemma Prepend(a: seq<Id>, b: seq<Id>)
    requires a != []
    ensures [a[0]] + (a[1..] + b) == a + b
  {
    assert a == [a[0]] + a[1..];
  }

  // Between two passes.
  ghost predicate Boundary(s: Sched) {
    NoPriority(s) && s.current == None && s.io == [] && !s.lastCpu && !s.panicked
  }

  // One pass of the event loop: completions wake tasks, the cohort is formed and drained.
  function Pass(s: Sched, wakes: seq<Action>, scripts: Scripts, limit: nat): (r: (Sched, seq<Id>, bool))
    requires Known(s)
    ensures Known(r.0)
  {
    Rounds(PrepareCohort(RunFrom(s, wakes)), scripts, 0, limit)
  }

  // Each pass ends. Unless the event loop panics, it takes exactly the tasks that were ready when it
  // began, in the order in which they became ready, and then the head of the CPU queue as it is
  // when they have been polled, if it has one, however often the polled tasks schedule themselves
  // again.
  lemma PassTakesTheCohort(s: Sched, wakes: seq<Action>, scripts: Scripts, limit: nat)
    requires Boundary(s) && AllPlain(wakes) && PlainScripts(scripts) && limit >= |RunFrom(s, wakes).fill| + 2
    ensures var cohort := RunFrom(s, wakes).fill;
      var (t, taken, ended) := Pass(s, wakes, scripts, limit);
      && ended
      && (!t.panicked ==>
            && Boundary(t)
            && taken == cohort + FirstOf(AfterRounds(PrepareCohort(RunFrom(s, wakes)), scripts, 0, |cohort|).cpu)
            && (s.cpu != [] ==> taken == cohort + [s.cpu[0]] && s.cpu[1..] <= t.cpu))
  {
    hide RunFrom, Rounds, AfterRounds, Known;
    PlainRun(s, wakes);
    var p := PrepareCohort(RunFrom(s, wakes));
    PreparePlain(RunFrom(s, wakes));
    RoundsTake(p, scripts, 0, limit);
  }

  // In the same pass, a task that became ready before another is taken before it.
  lemma FirstReadyFirstTaken(s: Sched, wakes: seq<Action>, k: nat, scripts: Scripts, limit: nat, x: Id, y: Id)
    requires Boundary(s) && AllPlain(wakes) && PlainScripts(scripts) && limit >= |RunFrom(s, wakes).fill| + 2
    requires k <= |wakes| && x in RunFrom(s, wakes[..k]).fill && y !in RunFrom(s, wakes[..k]).fill
    requires y in RunFrom(s, wakes).fill
    ensures var (t, taken, _) := Pass(s, wakes, scripts, limit);
      t.panicked || exists i, j :: 0 <= i < j < |taken| && taken[i] == x && taken[j] == y
  {
    hide RunFrom, Pass, AfterRounds, Known;
    IsBoundary(s);
    PassTakesTheCohort(s, wakes, scripts, limit);
    var (t, taken, _) := Pass(s, wakes, scripts, limit);
    var front, cohort := RunFrom(s, wakes[..k]).fill, RunFrom(s, wakes).fill;
    assert wakes == wakes[..k] + wakes[k..];
    RunAppends(s, wakes[..k], wakes[k..]);
    assert Prepare !in wakes[k..] by { NoPrepare(wakes, k); }
    FirstReadyIsFirst(RunFrom(s, wakes[..k]), wakes[k..]);
    var i :| 0 <= i < |front| && front[i] == x;
    var j :| 0 <= j < |cohort| && cohort[j] == y;
    assert front[i] == cohort[i] && front == cohort[..|front|];
    if !t.panicked {
      assert taken[i] == cohort[i] && taken[j] == cohort[j];
    }
  }

  lemma NoPrepare(wakes: seq<Action>, k: nat)
    requires AllPlain(wakes) && k <= |wakes|
    ensures Prepare !in wakes[k..]
  {
    forall i | 0 <= i < |wakes| - k
      ensures wakes[k..][i] != Prepare
    {
      assert Plain(wakes[k + i]);
    }
  }

  lemma PreparePlain(s: Sched)
    requires NoPriority(s)
    ensures NoPriority(PrepareCohort(s)) && PrepareCohort(s).current == s.current
  {
  }

  // The state before pass number `n`, given what happens in each pass. A panic is final.
  function Before(s: Sched, wakes: nat -> seq<Action>, scripts: nat -> Scripts, n: nat): (t: Sched)
    requires Known(s)
    ensures Known(t)
  {
    if n == 0 then s
    else
      var u := Before(s, wakes, scripts, n - 1);
      if u.panicked then u else FullPass(u, wakes(n - 1), scripts(n - 1)).0
  }

  // A pass with as many rounds as it needs.
  function FullPass(s: Sched, wakes: seq<Action>, scripts: Scripts): (r: (Sched, seq<Id>, bool))
    requires Known(s)
    ensures Known(r.0)
  {
    Pass(s, wakes, scripts, |RunFrom(s, wakes).fill| + 2)
  }

  ghost predicate PlainPasses(wakes: nat -> seq<Action>, scripts: nat -> Scripts) {
    (forall n :: AllPlain(wakes(n))) && (forall n :: PlainScripts(scripts(n)))
  }

  lemma {:induction false} MovesUp(s: Sched, wakes: nat -> seq<Action>, scripts: nat -> Scripts, k: nat)
    requires Boundary(s) && k <= |s.cpu| && PlainPasses(wakes, scripts)
    ensures var t := Before(s, wakes, scripts, k); t.panicked || (Boundary(t) && s.cpu[k..] <= t.cpu)
  {
    hide Boundary, Pass, AllPlain, PlainScripts, AfterRounds, RunFrom;
    IsBoundary(s);
    if k > 0 {
      MovesUp(s, wakes, scripts, k - 1);
      var t := Before(s, wakes, scripts, k - 1);
      if !t.panicked {
        PassTakesTheCohort(t, wakes(k - 1), scripts(k - 1), |RunFrom(t, wakes(k - 1)).fill| + 2);
        assert s.cpu[k - 1..][1..] == s.cpu[k..];
        assert s.cpu[k - 1..][1..] <= t.cpu[1..];
      }
    }
  }

  lemma IsBoundary(s: Sched)
    requires Boundary(s)
    ensures Known(s) && !s.panicked
  {
  }

  // A task at position `k` of the CPU queue is taken in pass number `k`, unless the event loop
  // panics before the end of that pass.
  lemma CpuTaskIsReached(s: Sched, wakes: nat -> seq<Action>, scripts: nat -> Scripts, k: nat)
    requires Boundary(s) && k < |s.cpu| && PlainPasses(wakes, scripts)
    ensures Before(s, wakes, scripts, k + 1).panicked
         || s.cpu[k] in FullPass(Before(s, wakes, scripts, k), wakes(k), scripts(k)).1
  {
    hide Boundary, Pass, AllPlain, PlainScripts, AfterRounds, RunFrom;
    IsBoundary(s);
    MovesUp(s, wakes, scripts, k);
    var t := Before(s, wakes, scripts, k);
    if !t.panicked {
      PassTakesTheCohort(t, wakes(k), scripts(k), |RunFrom(t, wakes(k)).fill| + 2);
      assert t.cpu[0] == s.cpu[k..][0];
    }
  }
}
