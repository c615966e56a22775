// The lock: an event that is set exactly while nobody holds it.

module LockSpec {
  import opened Bytes
  import opened WaitSpec

  function TryLock(e: Event): (bool, Event) {
    if e.isSet then (true, Reset(e)) else (false, e)
  }

  function Unlock(e: Event): Event {
    SetWakeN(e, 1)
  }

  // One poll of `lock`. A future that was polled before resumes inside its wait.
  function PollLock(e: Event, w: Id, registered: bool, canceled: bool, aborted: bool): (Outcome, Event) {
    if !registered && e.isSet then (Ready, Reset(e))
    else
      var (r, f) := PollWait(e, registered, w, true, canceled, aborted);
      match r
      case Ready => (Ready, Reset(f))
      case Panicked => (Panicked, if registered then Retire(f, w, true) else f)
      case _ => (r, f)
  }

  function DropLock(e: Event, w: Id, registered: bool): Event {
    if registered then Retire(e, w, true) else e
  }

  // What the sleep behind a deadline answers when it is polled. `Elapsed` carries the next
  // wait when the clock says that the deadline is still ahead.
  datatype Sleep = Sleeping | Elapsed(again: Option<Id>) | SleepCanceled

  datatype DeadlineOutcome = StillWaiting(w: Id) | Locked | Timeout | DeadlineCanceled | DeadlinePanicked

  // One poll of `lock_with_deadline` with a deadline, from inside its `select!`. `waitFirst` is
  // the order in which the two branches are polled.
  function PollDeadline(e: Event, w: Id, registered: bool, canceled: bool, aborted: bool, waitFirst: bool, sleep: Sleep)
    : (DeadlineOutcome, Event)
  {
    if waitFirst || sleep == Sleeping then
      var (r, f) := PollWait(e, registered, w, true, canceled, aborted);
      match r
      case Ready => (Locked, Reset(f))
      case Canceled => (DeadlineCanceled, f)
      case Panicked => (DeadlinePanicked, if registered then Retire(f, w, true) else f)
      case Pending => if sleep == Sleeping then (StillWaiting(w), f) else AfterSleep(Retire(f, w, true), sleep, aborted)
    else AfterSleep(if registered then Retire(e, w, true) else e, sleep, aborted)
  }

  // After the sleep has won and the wait was dropped.
  function AfterSleep(e: Event, sleep: Sleep, aborted: bool): (DeadlineOutcome, Event)
    requires sleep != Sleeping
  {
    if sleep == SleepCanceled then (DeadlineCanceled, e)
    else if e.isSet then (Locked, Reset(e))
    else if sleep.again.None? then (Timeout, e)
    else if aborted then (DeadlinePanicked, WakeAll(e))
    else (StillWaiting(sleep.again.value), Register(e, sleep.again.value))
  }

  // The first poll checks the event and the clock before it waits.
  function StartDeadline(e: Event, w: Id, expired: bool, aborted: bool): (DeadlineOutcome, Event) {
    if e.isSet then (Locked, Reset(e))
    else if expired then (Timeout, e)
    else PollDeadline(e, w, false, false, aborted, true, Sleeping)
  }
}

module LockSystem {
  import opened Bytes
  import opened Latches
  import opened WaitSpec
  import opened LockSpec

  // `guards` counts the live `AsyncLockRef`s.
  datatype System = System(unlocked: Event, live: set<Id>, canceled: set<Id>, guards: nat)

  datatype Action =
    | Start(w: Id, aborted: bool)
    | Poll(w: Id, aborted: bool)
    | StartWithDeadline(w: Id, expired: bool, aborted: bool)
    | PollWithDeadline(w: Id, aborted: bool, waitFirst: bool, sleep: Sleep)
    | DropFuture(w: Id)
    | Cancel(w: Id)
    | TryLock
    | DropGuard

  const INITIAL := System(Event(true, []), {}, {}, 0)

  predicate New(s: System, w: Id) {
    w !in s.live && w !in s.unlocked.queue
  }

  predicate Enabled(s: System, a: Action) {
    match a
    case Start(w, _) => New(s, w)
    case StartWithDeadline(w, _, _) => New(s, w)
    case PollWithDeadline(w, _, _, sleep) =>
      w in s.live && (sleep.Elapsed? && sleep.again.Some? ==> New(s, sleep.again.value))
    case DropGuard => s.guards > 0
    case TryLock => true
    case _ => a.w in s.live
  }

  // The pending futures and the guards after a poll of `w`.
  function Polled(s: System, w: Id, r: Outcome, e: Event): System {
    System(e,
           if r == Pending then s.live + {w} else s.live - {w},
           if r == Pending then s.canceled else s.canceled - {w},
           if r == Ready then s.guards + 1 else s.guards)
  }

  function PolledDeadline(s: System, w: Id, r: DeadlineOutcome, e: Event): System {
    System(e,
           s.live - {w} + (if r.StillWaiting? then {r.w} else {}),
           if r == StillWaiting(w) then s.canceled else s.canceled - {w},
           if r == Locked then s.guards + 1 else s.guards)
  }

  function Next(s: System, a: Action): System {
    match a
    case Start(w, aborted) =>
      var (r, e) := PollLock(s.unlocked, w, false, false, aborted);
      Polled(s, w, r, e)
    case Poll(w, aborted) =>
      var (r, e) := PollLock(s.unlocked, w, true, w in s.canceled, aborted);
      Polled(s, w, r, e)
    case StartWithDeadline(w, expired, aborted) =>
      var (r, e) := StartDeadline(s.unlocked, w, expired, aborted);
      PolledDeadline(s, w, r, e)
    case PollWithDeadline(w, aborted, waitFirst, sleep) =>
      var (r, e) := PollDeadline(s.unlocked, w, true, w in s.canceled, aborted, waitFirst, sleep);
      PolledDeadline(s, w, r, e)
    case DropFuture(w) =>
      s.(unlocked := DropLock(s.unlocked, w, true), live := s.live - {w}, canceled := s.canceled - {w})
    case Cancel(w) => s.(canceled := s.canceled + {w})
    case TryLock =>
      var (locked, e) := LockSpec.TryLock(s.unlocked);
      s.(unlocked := e, guards := if locked then s.guards + 1 else s.guards)
    case DropGuard => s.(unlocked := Unlock(s.unlocked), guards := if s.guards > 0 then s.guards - 1 else 0)
  }

  function Parked(s: System): set<Id> {
    s.live * Elems(s.unlocked.queue)
  }

  function Woken(s: System): set<Id> {
    s.live - Elems(s.unlocked.queue)
  }

  // A completed wait never leaves a stale entry here: taking the lock empties the queue.
  ghost predicate Inv(s: System) {
    && s.guards == (if s.unlocked.isSet then 0 else 1)
    && NoDup(s.unlocked.queue)
    && Elems(s.unlocked.queue) <= s.live
    && s.canceled <= s.live
    && (s.unlocked.isSet && Parked(s) != {} ==> Woken(s) != {})
  }

  // Retiring a wait.
  lemma RetireKeepsInv(s: System, t: System, w: Id)
    requires Inv(s)
    requires t == s.(unlocked := Retire(s.unlocked, w, true), live := s.live - {w}, canceled := s.canceled - {w})
    ensures Inv(t)
  {
    hide NoDup, Elems, Remove;
    RemoveElems(s.unlocked.queue, w);
    EmptyQueue();
  }

  lemma RegisterKeepsInv(s: System, t: System, w: Id)
    requires Inv(s) && !s.unlocked.isSet
    requires t == s.(unlocked := Register(s.unlocked, w), live := s.live + {w})
    ensures Inv(t)
  {
    hide NoDup, Elems, Remove;
    if w !in s.unlocked.queue {
      AppendElems(s.unlocked.queue, w);
    }
  }

  // `reset` by whoever takes the lock.
  lemma TakeKeepsInv(s: System, t: System, w: Id)
    requires Inv(s) && s.unlocked.isSet
    requires t == System(Reset(s.unlocked), s.live - {w}, s.canceled - {w}, s.guards + 1)
    ensures Inv(t)
  {
    hide NoDup, Elems, Remove;
    EmptyQueue();
  }

  lemma WakeAllKeepsInv(s: System)
    requires Inv(s)
    ensures Inv(s.(unlocked := WakeAll(s.unlocked)))
  {
    hide NoDup, Elems, Remove;
    EmptyQueue();
  }

  lemma PollKeepsInv(s: System, w: Id, registered: bool, canceled: bool, aborted: bool)
    requires Inv(s) && (if registered then w in s.live && (canceled <==> w in s.canceled) else New(s, w))
    ensures var (r, e) := PollLock(s.unlocked, w, registered, canceled, aborted);
      Inv(Polled(s, w, r, e))
  {
    hide NoDup, Elems, Remove;
    var (r, e) := PollLock(s.unlocked, w, registered, canceled, aborted);
    var t := Polled(s, w, r, e);
    match r {
      case Ready => TakeKeepsInv(s, t, w);
      case Pending => RegisterKeepsInv(s, t, w);
      case Canceled => RetireKeepsInv(s, t, w);
      case Panicked =>
        var u := s.(unlocked := WakeAll(s.unlocked));
        WakeAllKeepsInv(s);
        if registered {
          RetireKeepsInv(u, t, w);
        } else {
          assert t.live == u.live && t.canceled == u.canceled;
        }
    }
  }

  // After the wait `w` was dropped.
  lemma AfterSleepKeepsInv(s: System, w: Id, sleep: Sleep, aborted: bool)
    requires Inv(s) && w !in s.live && sleep != Sleeping
    ensures var (r, e) := AfterSleep(s.unlocked, sleep, aborted);
      Inv(PolledDeadline(s, w, r, e))
  {
    hide NoDup, Elems, Remove;
    var (r, e) := AfterSleep(s.unlocked, sleep, aborted);
    var t := PolledDeadline(s, w, r, e);
    assert s.live - {w} == s.live && s.canceled - {w} == s.canceled;
    if r == Locked {
      TakeKeepsInv(s, t, w);
    } else if r.StillWaiting? {
      RegisterKeepsInv(s, t, r.w);
    } else if r == DeadlinePanicked {
      WakeAllKeepsInv(s);
      assert t == s.(unlocked := WakeAll(s.unlocked));
    } else {
      assert t == s;
    }
  }

  lemma DeadlineKeepsInv(s: System, w: Id, aborted: bool, waitFirst: bool, sleep: Sleep)
    requires Inv(s) && Enabled(s, PollWithDeadline(w, aborted, waitFirst, sleep))
    ensures Inv(Next(s, PollWithDeadline(w, aborted, waitFirst, sleep)))
  {
    hide NoDup, Elems, Remove, PollWait;
    var canceled := w in s.canceled;
    var (r, e) := PollDeadline(s.unlocked, w, true, canceled, aborted, waitFirst, sleep);
    var t := PolledDeadline(s, w, r, e);
    if waitFirst || sleep == Sleeping {
      PollKeepsInv(s, w, true, canceled, aborted);
      var (r1, f) := PollLock(s.unlocked, w, true, canceled, aborted);
      var u := Polled(s, w, r1, f);
      if r1 == Pending {
        if sleep == Sleeping {
          assert t == u;
        } else {
          var v := u.(unlocked := Retire(u.unlocked, w, true), live := u.live - {w}, canceled := u.canceled - {w});
          RetireKeepsInv(u, v, w);
          AfterSleepKeepsInv(v, w, sleep, aborted);
        }
      } else {
        assert t.live == s.live - {w} + {};
        assert t == u;
      }
    } else {
      var v := s.(unlocked := Retire(s.unlocked, w, true), live := s.live - {w}, canceled := s.canceled - {w});
      RetireKeepsInv(s, v, w);
      AfterSleepKeepsInv(v, w, sleep, aborted);
    }
  }

  lemma StartDeadlineKeepsInv(s: System, w: Id, expired: bool, aborted: bool)
    requires Inv(s) && New(s, w)
    ensures Inv(Next(s, StartWithDeadline(w, expired, aborted)))
  {
    hide NoDup, Elems, Remove;
    var (r, e) := StartDeadline(s.unlocked, w, expired, aborted);
    var t := PolledDeadline(s, w, r, e);
    assert s.live - {w} + {} == s.live && s.canceled - {w} == s.canceled;
    PollKeepsInv(s, w, false, false, aborted);
    var (r1, f) := PollLock(s.unlocked, w, false, false, aborted);
    assert r == Timeout || t == Polled(s, w, r1, f);
  }

  lemma DropGuardKeepsInv(s: System)
    requires Inv(s) && s.guards > 0
    ensures Inv(Next(s, DropGuard))
  {
    hide NoDup, Elems, Remove;
    var q := s.unlocked.queue;
    EmptyQueue();
    if q != [] {
      TailElems(q);
      var t := Next(s, DropGuard);
      assert q[0] in Woken(t);
    }
  }

  lemma StepKeepsInv(s: System, a: Action)
    requires Inv(s) && Enabled(s, a)
    ensures Inv(Next(s, a))
  {
    hide NoDup, Elems, Remove, PollLock, PollDeadline, StartDeadline;
    match a {
      case Start(w, aborted) => PollKeepsInv(s, w, false, false, aborted);
      case Poll(w, aborted) => PollKeepsInv(s, w, true, w in s.canceled, aborted);
      case StartWithDeadline(w, expired, aborted) => StartDeadlineKeepsInv(s, w, expired, aborted);
      case PollWithDeadline(w, aborted, waitFirst, sleep) => DeadlineKeepsInv(s, w, aborted, waitFirst, sleep);
      case DropFuture(w) => RetireKeepsInv(s, Next(s, a), w);
      case Cancel(w) =>
      case TryLock => EmptyQueue();
      case DropGuard => DropGuardKeepsInv(s);
    }
  }

  // The state after any sequence of actions. An action that is not enabled changes nothing.
  ghost function Run(actions: seq<Action>): (s: System)
    ensures Inv(s)
    decreases |actions|
  {
    if actions == [] then
      EmptyQueue();
      INITIAL
    else
      var k := |actions| - 1;
      var s := Run(actions[..k]);
      if Enabled(s, actions[k]) then
        StepKeepsInv(s, actions[k]);
        Next(s, actions[k])
      else s
  }

  // At most one guard is live, and it is live exactly while the event is unset; no wake is lost.
  lemma MutualExclusion(actions: seq<Action>)
    ensures var s := Run(actions);
      && s.guards <= 1 && (s.guards == 1 <==> !s.unlocked.isSet)
      && (s.guards == 0 && Parked(s) != {} ==> Woken(s) != {})
      && (Woken(s) == {} ==> s.guards == 1 || s.live == {})
  {
    hide NoDup, Elems;
    var s := Run(actions);
    assert s.live == Parked(s) + Woken(s);
  }

  // A deadline is reported as missed only while somebody holds the lock.
  lemma TimeoutMeansHeld(actions: seq<Action>, w: Id, canceled: bool, aborted: bool, waitFirst: bool, sleep: Sleep,
      expired: bool)
    ensures var s := Run(actions);
      && (PollDeadline(s.unlocked, w, true, canceled, aborted, waitFirst, sleep).0 == Timeout ==>
            s.guards == 1 && sleep == Elapsed(None))
      && (StartDeadline(s.unlocked, w, expired, aborted).0 == Timeout ==> s.guards == 1 && expired)
  {
    hide NoDup, Elems, Remove;
    var s := Run(actions);
  }

  // What a poll answers.

  // A cancellation of `w`, after the first `k` actions, since when it has been pending.
  ghost predicate CanceledAt(actions: seq<Action>, w: Id, k: nat) {
    && k < |actions| && actions[k] == Cancel(w)
    && forall j :: k <= j <= |actions| ==> w in Run(actions[..j]).live
  }

  ghost predicate CanceledSince(actions: seq<Action>, w: Id) {
    exists k :: CanceledAt(actions, w, k)
  }

  // Canceled are exactly the pending futures that were canceled since they began to wait.
  lemma CanceledIff(actions: seq<Action>, w: Id)
    ensures w in Run(actions).canceled <==> CanceledSince(actions, w)
  {
    hide Run, Inv, Next, Enabled;
    var flag := (i: nat) => i <= |actions| && w in Run(actions[..i]).canceled;
    var ask := (i: nat) => i < |actions| && actions[i] == Cancel(w);
    var held := (i: nat) => i <= |actions| && w in Run(actions[..i]).live;
    NothingCanceled(w);
    forall i: nat | i < |actions|
      ensures LatchStep(flag, ask, held, i)
    {
      RunLast(actions[..i + 1]);
      assert actions[..i + 1][..i] == actions[..i];
      CanceledStep(Run(actions[..i]), actions[i], w);
    }
    assert actions[..0] == [] && actions[..|actions|] == actions;
    LatchIff(flag, ask, held, |actions|);
    if k: nat :| SetAndHeld(ask, held, |actions|, k) {
      forall j | k <= j <= |actions|
        ensures w in Run(actions[..j]).live
      {
        assert held(j);
      }
      assert CanceledAt(actions, w, k);
    }
    if k: nat :| CanceledAt(actions, w, k) {
      assert SetAndHeld(ask, held, |actions|, k);
    }
  }

  lemma NothingCanceled(w: Id)
    ensures w !in Run([]).canceled
  {
  }

  lemma RunLast(actions: seq<Action>)
    requires actions != []
    ensures var s := Run(actions[..|actions| - 1]);
      var a := actions[|actions| - 1];
      Run(actions) == if Enabled(s, a) then Next(s, a) else s
  {
  }

  lemma CanceledStep(s: System, a: Action, w: Id)
    requires Inv(s)
    ensures var t := if Enabled(s, a) then Next(s, a) else s;
      && (w in s.canceled ==> w in s.live) && (w in t.canceled ==> w in t.live)
      && (w in t.canceled <==> w in t.live && w in s.live && (w in s.canceled || a == Cancel(w)))
  {
    hide NoDup, Elems, Remove, Retire;
    if Enabled(s, a) {
      StepKeepsInv(s, a);
    }
  }

  function Answer(s: System, a: Action): Outcome
    requires a.Start? || a.Poll?
  {
    if a.Start? then PollLock(s.unlocked, a.w, false, false, a.aborted).0
    else PollLock(s.unlocked, a.w, true, a.w in s.canceled, a.aborted).0
  }

  // Over every run a poll of `lock` answers `Canceled` exactly if its wait was canceled since it
  // began. Without that it takes the lock if nobody holds it, and stays pending otherwise; an
  // aborted task panics, except in the first poll of a free lock. `try_lock` takes exactly a free
  // lock.
  lemma PollAnswers(actions: seq<Action>, a: Action)
    requires (a.Start? || a.Poll? || a.TryLock?) && Enabled(Run(actions), a)
    ensures var s := Run(actions);
      var t := Next(s, a);
      var free := s.guards == 0;
      if a.TryLock? then t.guards == 1 && (LockSpec.TryLock(s.unlocked).0 <==> free) && t.live == s.live
      else
        && Answer(s, a) == (if a.Poll? && CanceledSince(actions, a.w) then Canceled
                            else if free && (a.Start? || !a.aborted) then Ready
                            else if a.aborted then Panicked else Pending)
        && t.guards == s.guards + (if Answer(s, a) == Ready then 1 else 0)
        && (a.w in t.live <==> Answer(s, a) == Pending)
  {
    hide NoDup, Elems, Remove, Run, Retire, CanceledSince;
    if !a.TryLock? {
      CanceledIff(actions, a.w);
    }
    assert Inv(Run(actions));
  }

  // The wait that an action is about, and the one that it may begin.
  function Own(a: Action): (Id, Id) {
    match a
    case TryLock => (0, 0)
    case DropGuard => (0, 0)
    case PollWithDeadline(w, _, _, Elapsed(Some(again))) => (w, again)
    case _ => (a.w, a.w)
  }

  // A guard that is dropped wakes the first waiter, and nobody else.
  lemma ReleaseWakesFirst(s: System)
    requires Inv(s) && s.guards > 0
    ensures var (q, r) := (s.unlocked.queue, Next(s, DropGuard).unlocked.queue);
      if q == [] then r == [] else r == q[1..]
  {
  }

  // No step lets a waiter overtake another.
  lemma FirstComeFirstServed(s: System, a: Action)
    requires Inv(s) && Enabled(s, a)
    ensures InOrder(s.unlocked.queue, Next(s, a).unlocked.queue, Own(a).0, Own(a).1)
  {
    hide Elems, Remove, InOrder;
    OrderFacts(s.unlocked.queue, Own(a).0, Own(a).1);
  }

  // Over every run, a poll of `lock_with_deadline` takes the lock exactly if nobody holds it, it is
  // neither canceled nor aborted in a wait that it polls, and its sleep is not canceled before.
  // It reports a timeout exactly if somebody holds the lock when the sleep ends for good.
  lemma DeadlineAnswers(actions: seq<Action>, a: Action)
    requires a.PollWithDeadline? && Enabled(Run(actions), a)
    ensures var s := Run(actions);
      var r := PollDeadline(s.unlocked, a.w, true, a.w in s.canceled, a.aborted, a.waitFirst, a.sleep).0;
      var waits := a.waitFirst || a.sleep == Sleeping;
      var stopped := waits && (CanceledSince(actions, a.w) || a.aborted);
      && (r == Locked <==> s.guards == 0 && !stopped && (waits || a.sleep != SleepCanceled))
      && (r == Timeout <==> s.guards == 1 && !stopped && a.sleep == Elapsed(None))
      && Next(s, a).guards == s.guards + if r == Locked then 1 else 0
  {
    hide NoDup, Elems, Remove, Run, CanceledSince;
    CanceledIff(actions, a.w);
    assert Inv(Run(actions));
  }

  // Polls of woken futures alone come to an end, and then the lock is held or nobody waits.
  ghost function Settle(s: System, pick: System -> Id): (t: System)
    requires Inv(s)
    requires forall u: System :: Woken(u) != {} ==> pick(u) in Woken(u)
    ensures Inv(t) && Woken(t) == {}
    ensures t.guards == 1 || t.live == {}
    decreases |s.live|, |Woken(s)|
  {
    if Woken(s) == {} then
      assert s.live == Parked(s) + Woken(s);
      s
    else
      var w := pick(s);
      StepKeepsInv(s, Poll(w, false));
      PollMakesProgress(s, w);
      Settle(Next(s, Poll(w, false)), pick)
  }

  lemma PollMakesProgress(s: System, w: Id)
    requires Inv(s) && w in Woken(s)
    ensures var t := Next(s, Poll(w, false));
      |t.live| < |s.live| || (t.live == s.live && |Woken(t)| < |Woken(s)|)
  {
    hide NoDup, Elems, Remove;
    var t := Next(s, Poll(w, false));
    if w in t.live {
      assert t.live == s.live;
      NotLinked(s.unlocked.queue, w);
      AppendElems(s.unlocked.queue, w);
      JoinQueue(s.live, Elems(s.unlocked.queue), w);
    } else {
      assert t.live == s.live - {w};
    }
  }
}

module AsyncLocks {
  import opened WaitSpec
  import opened AsyncEvents
  import Spec = LockSpec

  class AsyncLock {
    const unlocked: AsyncEvent

    constructor ()
      ensures unlocked.Value() == Event(true, []) && fresh(unlocked)
    {
      var event := new AsyncEvent.WithState(false);
      event.Set();
      unlocked := event;
    }

    method TryLock() returns (locked: bool)
      modifies unlocked
      ensures (locked, unlocked.Value()) == Spec.TryLock(old(unlocked.Value()))
    {
      if unlocked.state {
        unlocked.Reset();
        return true;
      }
      return false;
    }

    // One poll of `lock`, whose wait is `wait`.
    method PollLock(wait: WaitFuture, aborted: bool) returns (r: Outcome)
      requires wait.event == unlocked && wait.expected && wait.source
      modifies unlocked, wait
      ensures (r, unlocked.Value())
          == Spec.PollLock(old(unlocked.Value()), wait.id, old(wait.waitData), old(wait.canceled), aborted)
      ensures r == Pending ==> wait.source && wait.waitData
    {
      hide Remove;
      var waiting := wait.waitData || !unlocked.state;
      while waiting
        invariant unlocked.Value() == old(unlocked.Value())
        invariant waiting ==>
          && wait.source && wait.waitData == old(wait.waitData) && wait.canceled == old(wait.canceled)
          && (wait.waitData || !unlocked.state)
        invariant !waiting ==> unlocked.state
        invariant !waiting && old(wait.waitData) ==> !old(wait.canceled) && !aborted
        decreases waiting
      {
        r := wait.Poll(aborted);
        if r == Pending {
          return;
        }
        wait.Drop();
        if r != Ready {
          return;
        }
        waiting := !unlocked.state;
      }
      unlocked.Reset();
      r := Ready;
    }

    // One poll of `lock_with_deadline` from inside its `select!`. `next` is the wait that is
    // pending afterwards.
    method PollWithDeadline(wait: WaitFuture, aborted: bool, waitFirst: bool, sleep: Spec.Sleep)
      returns (r: Spec.DeadlineOutcome, next: WaitFuture)
      requires wait.event == unlocked && wait.expected && wait.source
      modifies unlocked, wait
      ensures (r, unlocked.Value())
        == Spec.PollDeadline(old(unlocked.Value()), wait.id, old(wait.waitData), old(wait.canceled), aborted,
            waitFirst, sleep)
      ensures r.StillWaiting? ==> next.event == unlocked && next.id == r.w && next.source && next.waitData
    {
      hide Remove;
      next := wait;
      if waitFirst || sleep == Spec.Sleeping {
        var ready := wait.Poll(aborted);
        match ready {
          case Pending =>
            if sleep == Spec.Sleeping {
              return Spec.StillWaiting(wait.id), wait;
            }
          case Ready =>
            wait.Drop();
            var locked := TryLock();
            return if locked then Spec.Locked else Spec.Timeout, wait;
          case Canceled =>
            wait.Drop();
            return Spec.DeadlineCanceled, wait;
          case Panicked =>
            wait.Drop();
            return Spec.DeadlinePanicked, wait;
        }
      }
      wait.Drop();
      if sleep == Spec.SleepCanceled {
        return Spec.DeadlineCanceled, wait;
      }
      if !unlocked.state && sleep.again.Some? {
        next := new WaitFuture(unlocked, true, sleep.again.value);
        var ready := next.Poll(aborted);
        if ready == Pending {
          return Spec.StillWaiting(next.id), next;
        }
        next.Drop();
        return Spec.DeadlinePanicked, next;
      }
      if !unlocked.state {
        return Spec.Timeout, wait;
      }
      var locked := TryLock();
      return if locked then Spec.Locked else Spec.Timeout, wait;
    }

    // Its first poll, which looks at the lock and at the clock before it waits.
    method StartWithDeadline(wait: WaitFuture, expired: bool, aborted: bool) returns (r: Spec.DeadlineOutcome)
      requires wait.event == unlocked && wait.expected && wait.source && !wait.waitData
      modifies unlocked, wait
      ensures (r, unlocked.Value()) == Spec.StartDeadline(old(unlocked.Value()), wait.id, expired, aborted)
    {
      hide Remove;
      if unlocked.state {
        var locked := TryLock();
        return if locked then Spec.Locked else Spec.Timeout;
      }
      if expired {
        return Spec.Timeout;
      }
      var next: WaitFuture;
      r, next := PollWithDeadline(wait, aborted, true, Spec.Sleeping);
    }

    // Drops a guard.
    method DropGuard()
      modifies unlocked
      ensures unlocked.Value() == Spec.Unlock(old(unlocked.Value()))
    {
      unlocked.SetWakeOne();
    }
  }
}
