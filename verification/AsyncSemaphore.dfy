// The counting semaphore, under spurious polls, dropped futures, cancellation and aborts.

module SemaphoreSpec {
  import opened WaitSpec

  datatype Semaphore = Semaphore(tokens: nat, available: Event)

  function New(initial: nat): Semaphore {
    Semaphore(initial, Event(initial > 0, []))
  }

  // `acquire` after its wait: takes a token, and resets the event with the last one.
  function Take(s: Semaphore): Semaphore
    requires s.tokens > 0
  {
    Semaphore(s.tokens - 1, if s.tokens == 1 then Reset(s.available) else s.available)
  }

  function Release(s: Semaphore): Semaphore {
    Semaphore(s.tokens + 1, SetWakeN(s.available, 1))
  }

  // One poll of `acquire`. A future that was polled before resumes inside its wait.
  function PollAcquire(s: Semaphore, w: Id, registered: bool, canceled: bool, aborted: bool): (Outcome, Semaphore)
    requires s.available.isSet <==> s.tokens > 0
  {
    if !registered && s.tokens > 0 then (Ready, Take(s))
    else
      var (r, e) := PollWait(s.available, registered, w, true, canceled, aborted);
      match r
      case Ready => (Ready, Take(s))
      case Panicked => (Panicked, s.(available := if registered then Retire(e, w, true) else e))
      case _ => (r, s.(available := e))
  }

  function DropAcquire(s: Semaphore, w: Id, registered: bool): Semaphore {
    if registered then s.(available := Retire(s.available, w, true)) else s
  }
}

// All the futures that wait on one semaphore, and what the environment may do to them.
module SemaphoreSystem {
  import opened Bytes
  import opened Latches
  import opened WaitSpec
  import opened SemaphoreSpec

  // `live` are the pending futures and `canceled` those whose wait was canceled; `acquired` and
  // `released` count the tokens that went out and came in.
  datatype System = System(sem: Semaphore, live: set<Id>, canceled: set<Id>, acquired: nat, released: nat)

  datatype Action =
    | Start(w: Id, aborted: bool)
    | Poll(w: Id, aborted: bool)
    | DropFuture(w: Id)
    | Cancel(w: Id)
    | ReleaseToken

  function Initial(n: nat): System {
    System(New(n), {}, {}, 0, 0)
  }

  ghost predicate Enabled(s: System, a: Action) {
    match a
    case Start(w, _) => w !in s.live && w !in s.sem.available.queue
    case Poll(w, _) => w in s.live
    case DropFuture(w) => w in s.live
    case Cancel(w) => w in s.live
    case ReleaseToken => true
  }

  // The state after a poll of `w`.
  function Polled(s: System, w: Id, r: Outcome, sem: Semaphore): System {
    System(sem,
           if r == Pending then s.live + {w} else s.live - {w},
           if r == Pending then s.canceled else s.canceled - {w},
           if r == Ready then s.acquired + 1 else s.acquired,
           s.released)
  }

  function Next(s: System, a: Action): System
    requires s.sem.available.isSet <==> s.sem.tokens > 0
  {
    match a
    case Start(w, aborted) =>
      var (r, sem) := PollAcquire(s.sem, w, false, false, aborted);
      Polled(s, w, r, sem)
    case Poll(w, aborted) =>
      var (r, sem) := PollAcquire(s.sem, w, true, w in s.canceled, aborted);
      Polled(s, w, r, sem)
    case DropFuture(w) =>
      s.(sem := DropAcquire(s.sem, w, true), live := s.live - {w}, canceled := s.canceled - {w})
    case Cancel(w) => s.(canceled := s.canceled + {w})
    case ReleaseToken => s.(sem := SemaphoreSpec.Release(s.sem), released := s.released + 1)
  }

  function Queue(s: System): set<Id> {
    Elems(s.sem.available.queue)
  }

  // Live and linked: only a wake, a drop or a chance poll lets it go on.
  function Parked(s: System): set<Id> {
    s.live * Queue(s)
  }

  // Live and no longer linked: woken, and not polled since.
  function Woken(s: System): set<Id> {
    s.live - Queue(s)
  }

  // Linked entries of waits that have completed. A wake that reaches one of them is lost.
  function Stale(s: System): set<Id> {
    Queue(s) - s.live
  }

  ghost predicate Inv(initial: nat, s: System) {
    && (s.sem.available.isSet <==> s.sem.tokens > 0)
    && NoDup(s.sem.available.queue)
    && s.canceled <= s.live
    && (s.sem.tokens == 0 ==> Stale(s) == {})
    && (Parked(s) != {} ==> s.sem.tokens + |Stale(s)| <= |Woken(s)|)
    && s.sem.tokens + s.acquired == initial + s.released
  }

  lemma InitialInv(n: nat)
    ensures Inv(n, Initial(n))
  {
  }

  // Parked waiters disappear together with the queue.
  lemma NoQueue(s: System)
    requires s.sem.available.queue == []
    ensures Parked(s) == {} && Stale(s) == {} && Queue(s) == {}
  {
    assert Queue(s) == {};
  }

  lemma {:induction false} StepKeepsInv(n: nat, s: System, a: Action)
    requires Inv(n, s) && Enabled(s, a)
    ensures Inv(n, Next(s, a))
  {
    hide NoDup, Elems, Remove;
    match a {
      case Start(w, aborted) => PollKeepsInv(n, s, w, false, aborted);
      case Poll(w, aborted) => PollKeepsInv(n, s, w, true, aborted);
      case DropFuture(w) => DropKeepsInv(n, s, w);
      case Cancel(w) =>
      case ReleaseToken => ReleaseKeepsInv(n, s);
    }
  }

  lemma ReleaseKeepsInv(n: nat, s: System)
    requires Inv(n, s)
    ensures Inv(n, Next(s, ReleaseToken))
  {
    hide NoDup, Elems, Remove;
    var t := Next(s, ReleaseToken);
    var q := s.sem.available.queue;
    if |q| <= 1 {
      NoQueue(t);
      WaitSpec.EmptyQueue();
    } else {
      TailElems(q);
      LeaveQueue(s.live, Queue(s), q[0]);
      assert q[0] in s.live ==> q[0] in Parked(s);
      assert Parked(t) <= Parked(s);
    }
  }

  lemma DropKeepsInv(n: nat, s: System, w: Id)
    requires Inv(n, s) && w in s.live
    ensures Inv(n, Next(s, DropFuture(w)))
  {
    hide NoDup, Elems, Remove;
    var t := Next(s, DropFuture(w));
    RetireKeepsInv(n, s, t, w);
  }

  // After a future is retired, with or without a `wake_all` before.
  lemma RetireKeepsInv(n: nat, s: System, t: System, w: Id)
    requires Inv(n, s) && w in s.live
    requires t == s.(sem := s.sem.(available := Retire(s.sem.available, w, true)), live := s.live - {w},
        canceled := s.canceled - {w})
    ensures Inv(n, t)
  {
    hide NoDup, Elems, Remove;
    RemoveElems(s.sem.available.queue, w);
    if s.sem.available.isSet {
      NoQueue(t);
      WaitSpec.EmptyQueue();
    } else {
      assert Stale(t) == {};
    }
  }

  lemma PollKeepsInv(n: nat, s: System, w: Id, registered: bool, aborted: bool)
    requires Inv(n, s)
    requires if registered then w in s.live else w !in s.live && w !in s.sem.available.queue
    ensures Inv(n, Next(s, if registered then Poll(w, aborted) else Start(w, aborted)))
  {
    hide NoDup, Elems, Remove;
    var canceled := registered && w in s.canceled;
    var (r, sem) := PollAcquire(s.sem, w, registered, canceled, aborted);
    var t := Polled(s, w, r, sem);
    match r {
      case Ready => TakeKeepsInv(n, s, w, registered);
      case Pending => RegisterKeepsInv(n, s, w);
      case Canceled => RetireKeepsInv(n, s, t, w);
      case Panicked =>
        var u := s.(sem := s.sem.(available := WakeAll(s.sem.available)));
        NoQueue(u);
        WaitSpec.EmptyQueue();
        if registered {
          RetireKeepsInv(n, u, t, w);
        } else {
          assert t.live == u.live && t.canceled == u.canceled;
        }
    }
  }

  lemma TakeKeepsInv(n: nat, s: System, w: Id, registered: bool)
    requires Inv(n, s) && s.sem.tokens > 0
    requires if registered then w in s.live else w !in s.live && w !in s.sem.available.queue
    ensures Inv(n, Polled(s, w, Ready, Take(s.sem)))
  {
    hide NoDup, Elems, Remove;
    var t := Polled(s, w, Ready, Take(s.sem));
    if s.sem.tokens == 1 {
      NoQueue(t);
      WaitSpec.EmptyQueue();
    } else {
      EndWait(s.live, Queue(s), w);
      assert Parked(t) <= Parked(s);
      assert t.canceled <= t.live;
    }
  }

  lemma RegisterKeepsInv(n: nat, s: System, w: Id)
    requires Inv(n, s) && s.sem.tokens == 0
    ensures Inv(n, Polled(s, w, Pending, s.sem.(available := Register(s.sem.available, w))))
  {
    hide NoDup, Elems, Remove;
    var t := Polled(s, w, Pending, s.sem.(available := Register(s.sem.available, w)));
    if w !in s.sem.available.queue {
      AppendElems(s.sem.available.queue, w);
    }
    assert Stale(t) == {};
  }

  // The state after any sequence of actions. An action that is not enabled changes nothing.
  ghost function Run(n: nat, actions: seq<Action>): (s: System)
    ensures Inv(n, s)
    decreases |actions|
  {
    if actions == [] then
      InitialInv(n);
      Initial(n)
    else
      var k := |actions| - 1;
      var s := Run(n, actions[..k]);
      if Enabled(s, actions[k]) then
        StepKeepsInv(n, s, actions[k]);
        Next(s, actions[k])
      else s
  }

  // No wake is lost: in every reachable state, if a token is available while a future is
  // parked, some other future has been woken and not polled since. No token is made or lost.
  lemma NoLostWake(n: nat, actions: seq<Action>)
    ensures var s := Run(n, actions);
      && (s.sem.available.isSet <==> s.sem.tokens > 0)
      && (s.sem.tokens > 0 && Parked(s) != {} ==> Woken(s) != {})
      && (Woken(s) == {} ==> s.sem.tokens == 0 || s.live == {})
      && s.sem.tokens + s.acquired == n + s.released
  {
    hide NoDup, Elems;
    var s := Run(n, actions);
    assert s.live == Parked(s) + Woken(s);
  }

  // What a poll answers.

  // A cancellation of `w`, after the first `k` actions, since when it has been pending.
  ghost predicate CanceledAt(n: nat, actions: seq<Action>, w: Id, k: nat) {
    && k < |actions| && actions[k] == Cancel(w)
    && forall j :: k <= j <= |actions| ==> w in Run(n, actions[..j]).live
  }

  ghost predicate CanceledSince(n: nat, actions: seq<Action>, w: Id) {
    exists k :: CanceledAt(n, actions, w, k)
  }

  // Canceled are exactly the pending futures that were canceled since they began to wait.
  lemma CanceledIff(n: nat, actions: seq<Action>, w: Id)
    ensures w in Run(n, actions).canceled <==> CanceledSince(n, actions, w)
  {
    hide Run, Inv, Next, Enabled;
    var flag := (i: nat) => i <= |actions| && w in Run(n, actions[..i]).canceled;
    var ask := (i: nat) => i < |actions| && actions[i] == Cancel(w);
    var held := (i: nat) => i <= |actions| && w in Run(n, actions[..i]).live;
    NothingCanceled(n, w);
    forall i: nat | i < |actions|
      ensures LatchStep(flag, ask, held, i)
    {
      RunLast(n, actions[..i + 1]);
      assert actions[..i + 1][..i] == actions[..i];
      CanceledStep(n, Run(n, actions[..i]), actions[i], w);
    }
    assert actions[..0] == [] && actions[..|actions|] == actions;
    LatchIff(flag, ask, held, |actions|);
    if k: nat :| SetAndHeld(ask, held, |actions|, k) {
      forall j | k <= j <= |actions|
        ensures w in Run(n, actions[..j]).live
      {
        assert held(j);
      }
      assert CanceledAt(n, actions, w, k);
    }
    if k: nat :| CanceledAt(n, actions, w, k) {
      assert SetAndHeld(ask, held, |actions|, k);
    }
  }

  lemma NothingCanceled(n: nat, w: Id)
    ensures w !in Run(n, []).canceled
  {
  }

  lemma RunLast(n: nat, actions: seq<Action>)
    requires actions != []
    ensures var s := Run(n, actions[..|actions| - 1]);
      var a := actions[|actions| - 1];
      Run(n, actions) == if Enabled(s, a) then Next(s, a) else s
  {
  }

  lemma CanceledStep(n: nat, s: System, a: Action, w: Id)
    requires Inv(n, s)
    ensures var t := if Enabled(s, a) then Next(s, a) else s;
      && (w in s.canceled ==> w in s.live) && (w in t.canceled ==> w in t.live)
      && (w in t.canceled <==> w in t.live && w in s.live && (w in s.canceled || a == Cancel(w)))
  {
    hide NoDup, Elems, Remove, Retire;
    if Enabled(s, a) {
      StepKeepsInv(n, s, a);
    }
  }

  function Answer(s: System, a: Action): Outcome
    requires (s.sem.available.isSet <==> s.sem.tokens > 0) && (a.Start? || a.Poll?)
  {
    if a.Start? then PollAcquire(s.sem, a.w, false, false, a.aborted).0
    else PollAcquire(s.sem, a.w, true, a.w in s.canceled, a.aborted).0
  }

  // Over every run a poll answers `Canceled` exactly if its wait was canceled since it began.
  // Without that it takes a token if one is left, and stays pending if not; an aborted task
  // panics, except in the first poll of a semaphore with tokens.
  lemma PollAnswers(n: nat, actions: seq<Action>, a: Action)
    requires (a.Start? || a.Poll?) && Enabled(Run(n, actions), a)
    ensures var s := Run(n, actions);
      var t := Next(s, a);
      var canceled := a.Poll? && CanceledSince(n, actions, a.w);
      var left := n + s.released > s.acquired;
      && Answer(s, a) == (if canceled then Canceled else if left && (a.Start? || !a.aborted) then Ready
                          else if a.aborted then Panicked else Pending)
      && t.acquired == s.acquired + (if Answer(s, a) == Ready then 1 else 0) && t.released == s.released
      && (a.w in t.live <==> Answer(s, a) == Pending)
  {
    hide NoDup, Elems, Remove, Run, Retire, CanceledSince;
    CanceledIff(n, actions, a.w);
    assert Inv(n, Run(n, actions));
  }

  // A token that comes back wakes the first waiter, and nobody else.
  lemma ReleaseWakesFirst(n: nat, s: System)
    requires Inv(n, s)
    ensures var (q, r) := (s.sem.available.queue, Next(s, ReleaseToken).sem.available.queue);
      if q == [] then r == [] else r == q[1..]
  {
  }

  // No step lets a waiter overtake another.
  lemma FirstComeFirstServed(n: nat, s: System, a: Action)
    requires Inv(n, s) && Enabled(s, a)
    ensures var w := if a.ReleaseToken? then 0 else a.w;
      InOrder(s.sem.available.queue, Next(s, a).sem.available.queue, w, w)
  {
    hide Elems, Remove, InOrder;
    OrderFacts(s.sem.available.queue, if a.ReleaseToken? then 0 else a.w, if a.ReleaseToken? then 0 else a.w);
  }

  // Polls of woken futures alone, in whatever order a scheduler picks them, come to an end,
  // and then every token is taken or no future is left.
  ghost function Settle(n: nat, s: System, pick: System -> Id): (t: System)
    requires Inv(n, s)
    requires forall u: System :: Woken(u) != {} ==> pick(u) in Woken(u)
    ensures Inv(n, t) && Woken(t) == {}
    ensures t.sem.tokens == 0 || t.live == {}
    ensures t.released == s.released
    decreases |s.live|, |Woken(s)|
  {
    if Woken(s) == {} then
      assert s.live == Parked(s);
      s
    else
      var w := pick(s);
      StepKeepsInv(n, s, Poll(w, false));
      PollMakesProgress(n, s, w);
      Settle(n, Next(s, Poll(w, false)), pick)
  }

  lemma PollMakesProgress(n: nat, s: System, w: Id)
    requires Inv(n, s) && w in Woken(s)
    ensures var t := Next(s, Poll(w, false));
      && t.released == s.released
      && (|t.live| < |s.live| || (t.live == s.live && |Woken(t)| < |Woken(s)|))
  {
    hide NoDup, Elems, Remove, Stale;
    var t := Next(s, Poll(w, false));
    if w in t.live {
      assert t.live == s.live;
      NotLinked(s.sem.available.queue, w);
      AppendElems(s.sem.available.queue, w);
      JoinQueue(s.live, Queue(s), w);
    } else {
      assert t.live == s.live - {w};
    }
  }
}

module AsyncSemaphores {
  import opened WaitSpec
  import opened AsyncEvents
  import Spec = SemaphoreSpec

  class AsyncSemaphore {
    var tokens: nat
    const available: AsyncEvent

    ghost predicate Valid()
      reads this, available
    {
      available.state <==> tokens > 0
    }

    function Value(): Spec.Semaphore
      reads this, available
    {
      Spec.Semaphore(tokens, available.Value())
    }

    constructor (initial: nat)
      ensures Valid() && Value() == Spec.New(initial) && fresh(available)
    {
      var event := new AsyncEvent.WithState(false);
      if initial > 0 {
        event.Set();
      }
      tokens := initial;
      available := event;
    }

    // One poll of `acquire`, whose wait is `wait`.
    method PollAcquire(wait: WaitFuture, aborted: bool) returns (r: Outcome)
      requires Valid() && wait.event == available && wait.expected && wait.source
      modifies this, available, wait
      ensures Valid()
      ensures (r, Value()) == Spec.PollAcquire(old(Value()), wait.id, old(wait.waitData), old(wait.canceled), aborted)
      ensures r == Pending ==> wait.source && wait.waitData
    {
      hide Remove;
      var waiting := wait.waitData || tokens == 0;
      while waiting
        invariant Valid() && tokens == old(tokens) && available.Value() == old(available.Value())
        invariant waiting ==>
          && wait.source && wait.waitData == old(wait.waitData) && wait.canceled == old(wait.canceled)
          && (wait.waitData || tokens == 0)
        invariant !waiting ==> tokens > 0
        invariant !waiting && old(wait.waitData) ==> !old(wait.canceled) && !aborted
        decreases waiting
      {
        r := wait.Poll(aborted);
        if r == Pending {
          return;
        }
        wait.Drop();
        if r != Ready {
          return;
        }
        waiting := tokens == 0;
      }
      tokens := tokens - 1;
      if tokens == 0 {
        available.Reset();
      }
      r := Ready;
    }

    // Drops a pending `acquire`.
    method DropAcquire(wait: WaitFuture)
      requires Valid() && wait.event == available && wait.expected && wait.source
      modifies available, wait
      ensures Valid() && Value() == Spec.DropAcquire(old(Value()), wait.id, old(wait.waitData))
    {
      hide Remove;
      wait.Drop();
    }

    method Release()
      requires Valid()
      modifies this, available
      ensures Valid() && Value() == Spec.Release(old(Value()))
    {
      tokens := tokens + 1;
      available.SetWakeOne();
    }
  }
}
