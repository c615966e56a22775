// Join handles, priority and aborts, over whole runs.
module SchedulerHandles {
  import opened Bytes
  import opened SchedulerSpec
  import opened SchedulerSystem
  import opened SchedulerInvariant
  import opened SchedulerRuns
  import Handles = HandleTableSpec

  // A handle is listed at most once.
  ghost predicate DistinctKeys(q: seq<Waiter>) {
    forall i, j :: 0 <= i < j < |q| ==> q[i].key != q[j].key
  }

  lemma DistinctTail(q: seq<Waiter>)
    requires DistinctKeys(q) && q != []
    ensures DistinctKeys(q[1..]) && forall x :: x in q[1..] ==> x.key != q[0].key
  {
  }

  lemma DistinctCons(w: Waiter, q: seq<Waiter>)
    requires DistinctKeys(q) && forall x :: x in q ==> x.key != w.key
    ensures DistinctKeys([w] + q)
  {
    var r := [w] + q;
    forall i, j | 0 <= i < j < |r|
      ensures r[i].key != r[j].key
    {
      assert r[j] == q[j - 1] && r[j] in q;
      if i > 0 {
        assert r[i] == q[i - 1];
      }
    }
  }

  lemma {:induction false} RegisterKeys(q: seq<Waiter>, w: Waiter)
    requires DistinctKeys(q)
    ensures DistinctKeys(Register(q, w)) && forall x :: x in Register(q, w) <==> x == w || (x in q && x.key != w.key)
    decreases |q|
  {
    if q != [] {
      DistinctTail(q);
      if q[0].key == w.key {
        DistinctCons(w, q[1..]);
      } else {
        RegisterKeys(q[1..], w);
        DistinctCons(q[0], Register(q[1..], w));
      }
      assert q == [q[0]] + q[1..];
    }
  }

  lemma {:induction false} UnregisterKeys(q: seq<Waiter>, key: nat)
    requires DistinctKeys(q)
    ensures DistinctKeys(Unregister(q, key)) && forall x :: x in Unregister(q, key) <==> x in q && x.key != key
    decreases |q|
  {
    if q != [] {
      DistinctTail(q);
      if q[0].key != key {
        UnregisterKeys(q[1..], key);
        DistinctCons(q[0], Unregister(q[1..], key));
      }
      assert q == [q[0]] + q[1..];
    }
  }

  // What a step does to the handles that wait for `target`.
  lemma JoiningAfter(s: Sched, a: Action, target: Id)
    requires Inv(s) && target in Step(s, a).joining
    ensures var (before, after) := (s.joining, Step(s, a).joining[target]);
      || after == []
      || (target in before && after == before[target])
      || (a.JoinTask? && a.target == target && s.current.Some? && target in before
          && after == Register(before[target], Waiter(a.key, s.current.value)))
      || (a.DropJoin? && a.target == target && target in before && after == Unregister(before[target], a.key))
  {
    hide Queued, QueuesOk, CountOk, Finished, Taken, WakeAll, Within, Enqueue, CurrentOk;
    KeepsJoining();
    if Enabled(s, a) {
      match a {
        case Spawn(x) => SpawnFrame(s, x);
        case Take => TakeFrame(s);
        case Done => DoneFrame(s);
        case JoinTask(other, _) => WakeAllKeepsJoining(s.(joining := s.joining[other := []]), s.joining[other]);
        case _ =>
      }
    }
  }

  ghost predicate HandlesOk(s: Sched) {
    forall id :: id in s.joining ==> DistinctKeys(s.joining[id])
  }

  lemma HandlesStep(s: Sched, a: Action)
    requires Inv(s) && HandlesOk(s)
    ensures HandlesOk(Step(s, a))
  {
    hide Inv, Step, DistinctKeys, Register, Unregister;
    InvIsKnown(s);
    forall id | id in Step(s, a).joining
      ensures DistinctKeys(Step(s, a).joining[id])
    {
      JoiningAfter(s, a, id);
      NoHandles();
      if id in s.joining {
        if a.JoinTask? && s.current.Some? {
          RegisterKeys(s.joining[id], Waiter(a.key, s.current.value));
        } else if a.DropJoin? {
          UnregisterKeys(s.joining[id], a.key);
        }
      }
    }
  }

  lemma NoHandles()
    ensures DistinctKeys([])
  {
  }

  lemma {:induction false} HandlesRun(s: Sched, b: seq<Action>)
    requires Inv(s) && HandlesOk(s)
    ensures Inv(RunFrom(s, b)) && HandlesOk(RunFrom(s, b))
    decreases |b|
  {
    hide Inv, Step, HandlesOk;
    InvIsKnown(s);
    if b != [] {
      StepHolds(s, b[0]);
      HandlesStep(s, b[0]);
      HandlesRun(Step(s, b[0]), b[1..]);
    }
  }

  // `target` has no handle with this key on its list.
  ghost predicate Forgotten(s: Sched, target: Id, key: nat) {
    target in s.joining && forall w :: w in s.joining[target] ==> w.key != key
  }

  lemma ForgottenStep(s: Sched, a: Action, target: Id, key: nat)
    requires Inv(s) && HandlesOk(s) && Forgotten(s, target, key) && a != JoinTask(target, key)
    ensures Forgotten(Step(s, a), target, key)
  {
    hide Step, DistinctKeys, Register, Unregister, QueuesOk, CurrentOk, CountOk, WaitsOk, Within;
    NameStays(s, a, target);
    assert target in Step(s, a).joining;
    JoiningAfter(s, a, target);
    if a.JoinTask? && s.current.Some? {
      RegisterKeys(s.joining[target], Waiter(a.key, s.current.value));
    } else if a.DropJoin? {
      UnregisterKeys(s.joining[target], a.key);
    }
  }

  lemma {:induction false} ForgottenLasts(s: Sched, b: seq<Action>, target: Id, key: nat)
    requires Inv(s) && HandlesOk(s) && Forgotten(s, target, key) && JoinTask(target, key) !in b
    ensures Forgotten(RunFrom(s, b), target, key)
    decreases |b|
  {
    hide Inv, Step, HandlesOk, Forgotten;
    InvIsKnown(s);
    if b != [] {
      assert b[0] in b;
      StepHolds(s, b[0]);
      HandlesStep(s, b[0]);
      ForgottenStep(s, b[0], target, key);
      ForgottenLasts(Step(s, b[0]), b[1..], target, key);
    }
  }

  // A join handle that was dropped is off the list of its target, and stays off it until a handle
  // with its key is polled.
  lemma DroppedHandleIsForgotten(a: seq<Action>, target: Id, key: nat, b: seq<Action>)
    requires Enabled(Run(a), DropJoin(target, key)) && JoinTask(target, key) !in b
    ensures var t := RunFrom(Step(Run(a), DropJoin(target, key)), b);
      target in t.joining && forall w :: w in t.joining[target] ==> w.key != key
  {
    hide DistinctKeys, Register, Unregister, RunFrom, Queued, QueuesOk, CurrentOk, CountOk, WaitsOk, Within;
    var s := Run(a);
    InitialHandles();
    HandlesRun(INITIAL, a);
    UnregisterKeys(s.joining[target], key);
    StepHolds(s, DropJoin(target, key));
    HandlesStep(s, DropJoin(target, key));
    ForgottenLasts(Step(s, DropJoin(target, key)), b, target, key);
  }

  lemma InitialHandles()
    ensures Inv(INITIAL) && HandlesOk(INITIAL)
  {
  }

  // What the polled task has last asked for.
  function LastSet(acts: seq<Action>, before: bool): bool {
    if acts == [] then before else LastSet(acts[1..], if acts[0].SetPriority? then acts[0].on else before)
  }

  lemma PriorityAfter(s: Sched, a: Action)
    requires Inv(s) && s.current.Some? && !s.panicked && Inside(a)
    ensures var t := Step(s, a);
      && t.current == s.current && !t.panicked
      && (HasPriority(t) <==> if a.SetPriority? then a.on else HasPriority(s))
  {
    hide Queued, QueuesOk, CountOk, WakeAll, Within, CurrentOk, Enqueue, Handles.Insert;
    CurrentAfter(s, a);
    EnqueueKeepsHigh();
    if a.JoinTask? && Enabled(s, a) {
      JoiningHolds(s, a.target, []);
      WakeAllHolds(s.(joining := s.joining[a.target := []]), s.joining[a.target]);
    }
  }

  lemma EnqueueKeepsHigh()
    ensures forall t: Sched, id: Id :: Enqueue(t, id).high == t.high
  {
  }

  lemma {:induction false} PriorityWithin(s: Sched, acts: seq<Action>)
    requires Inv(s) && s.current.Some? && !s.panicked && AllInside(acts)
    ensures HasPriority(RunFrom(s, acts)) <==> LastSet(acts, HasPriority(s))
    decreases |acts|
  {
    hide Inv, Step, HasPriority;
    InvIsKnown(s);
    if acts != [] {
      StepHolds(s, acts[0]);
      PriorityAfter(s, acts[0]);
      PriorityWithin(Step(s, acts[0]), acts[1..]);
    }
  }

  // Priority is what the polled task has asked for last in this poll, and it starts each poll without.
  lemma PriorityIff(b: seq<Action>, acts: seq<Action>)
    requires !Run(b).panicked && Run(b).current == None && Step(Run(b), Take).current.Some? && AllInside(acts)
    ensures HasPriority(RunFrom(Step(Run(b), Take), acts)) <==> LastSet(acts, false)
  {
    hide Run, RunFrom, LastSet, Queued, QueuesOk, CountOk, CurrentOk, Within, Taken;
    var s := Run(b);
    InitialHandles();
    RunIsFrom(b);
    HandlesRun(INITIAL, b);
    StepHolds(s, Take);
    TakeFrame(s);
    TakenState(s);
    var id := Step(s, Take).current.value;
    assert Step(s, Take).state[id] != Complete by {
      PolledIsLive(s);
    }
    PriorityWithin(Step(s, Take), acts);
  }

  lemma PolledIsLive(s: Sched)
    requires Known(s) && s.current == None && Taken(s).current.Some?
    ensures Taken(s).current.value in Taken(s).state && Taken(s).state[Taken(s).current.value] != Complete
  {
  }

  lemma RunIsFrom(b: seq<Action>)
    ensures Run(b) == RunFrom(INITIAL, b)
  {
  }

  // Aborts.

  lemma TakeKeepsAborted(s: Sched, id: Id)
    requires Known(s) && s.current == None && id in s.state && s.state[id] == Aborted
    ensures id in Taken(s).state && Taken(s).state[id] == Aborted
  {
    hide Within;
  }

  lemma {:induction false} WakeAllKeepsAborted(s: Sched, waiters: seq<Waiter>, id: Id)
    requires id in s.state && s.state[id] == Aborted
    ensures id in WakeAll(s, waiters).state && WakeAll(s, waiters).state[id] == Aborted
    decreases |waiters|
  {
    hide Enqueue;
    KeepsState();
    if waiters != [] {
      WakeAllKeepsAborted(if waiters[0].task in s.state then ScheduleIo(s, waiters[0].task) else s, waiters[1..], id);
    }
  }

  // An aborted task stays aborted until it completes.
  lemma StaysAborted(s: Sched, a: Action, id: Id)
    requires Inv(s) && id in s.state && s.state[id] == Aborted
    ensures var t := Step(s, a);
      id in t.state && t.state[id] == if a.Done? && Enabled(s, a) && s.current == Some(id) then Complete else Aborted
  {
    hide Queued, QueuesOk, CountOk, WaitsOk, Finished, Taken, WakeAll, Within, Enqueue, Handles.Insert, Handles.Fresh;
    KeepsState();
    if Enabled(s, a) {
      match a {
        case Take => TakeKeepsAborted(s, id);
        case Done => DoneFrame(s);
        case JoinTask(target, _) =>
          WakeAllKeepsAborted(s.(joining := s.joining[target := []]), s.joining[target], id);
        case _ =>
      }
    }
  }

  lemma {:induction false} AbortedLasts(s: Sched, b: seq<Action>, id: Id)
    requires Inv(s) && id in s.state && s.state[id] in {Aborted, Complete}
    ensures id in RunFrom(s, b).state && RunFrom(s, b).state[id] in {Aborted, Complete}
    decreases |b|
  {
    hide Inv, Step;
    InvIsKnown(s);
    if b != [] {
      StepHolds(s, b[0]);
      if s.state[id] == Aborted {
        StaysAborted(s, b[0], id);
      } else {
        StaysComplete(s, b[0], id);
      }
      AbortedLasts(Step(s, b[0]), b[1..], id);
    }
  }

  // A task that is ready or suspended when it is aborted is aborted and queued once, and in every longer
  // run it is aborted until it is complete. An abort does nothing to an aborted or complete task.
  lemma AbortIsForGood(a: seq<Action>, id: Id, b: seq<Action>)
    requires Enabled(Run(a), Abort(id))
    ensures var (s, t) := (Run(a), Step(Run(a), Abort(id)));
      && (s.state[id] in {Aborted, Complete} ==> t == s)
      && (s.state[id] in {Ready, Suspend} ==>
            && id in t.state && t.state[id] == Aborted && Queued(t)[id] == 1 && t.state == s.state[id := Aborted])
      && id in RunFrom(t, b).state && RunFrom(t, b).state[id] in {Aborted, Complete}
  {
    hide RunFrom, Queued, CountOk, WaitsOk, Within;
    var s := Run(a);
    ReachableHolds(a);
    StepHolds(s, Abort(id));
    if s.state[id] in {Ready, Suspend} {
      AbortFrame(s, id);
      AbortIsQueued(s, id);
    }
    AbortedLasts(Step(s, Abort(id)), b, id);
  }

  lemma AbortIsQueued(s: Sched, id: Id)
    requires Inv(s) && id in s.state && s.state[id] in {Ready, Suspend}
    ensures Queued(AbortTask(s, id))[id] == 1
  {
    hide Enqueue, Queued, CountOk, WaitsOk, Within;
    assert Queues(s, id);
    var u := WithState(s, id, Aborted);
    SameQueued(s, u);
    EnqueueAdds(u, id);
  }
}
