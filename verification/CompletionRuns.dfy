// Every run of futures, scopes, the event loop and the kernel.
module CompletionRuns {
  import opened Bytes
  import opened CompletionSpec
  import opened CompletionInvariant

  datatype Action =
    | New(id: Id, kind: Kind, iopoll: bool, timespec: bool, inScope: bool)
    | Poll(id: Id)
    | CancelRequest(id: Id)
    | BeginDrop(id: Id)
    | EndDrop(id: Id)
    | ScopeReturns(id: Id)
    | CallerDrops(fd: Fd)
    | EnterKernel(iopoll: bool, submissions: nat)
    | KernelAnswers(iopoll: bool, entry: Entry, result: Res)
    | ProcessCompletions(iopoll: bool)

  ghost predicate Enabled(s: System, a: Action) {
    match a
    case New(id, kind, _, _, _) => CanCreate(s, id, kind)
    case Poll(id) => id in s.heap && s.heap[id].handle && !s.heap[id].dropping
    case CancelRequest(id) => id in s.heap && (s.heap[id].handle || s.heap[id].scopes > 0)
    case BeginDrop(id) => id in s.heap && s.heap[id].handle && !s.heap[id].dropping
    case EndDrop(id) => id in s.heap && s.heap[id].dropping && !MustWait(s.heap[id])
    case ScopeReturns(id) => id in s.heap && s.heap[id].scopes > 0
    case CallerDrops(fd) => InHands(s, fd)
    case EnterKernel(iopoll, n) => n <= |RingOf(s, iopoll).sq|
    case KernelAnswers(iopoll, entry, result) => CanAnswer(s, iopoll, entry, result)
    case ProcessCompletions(_) => true
  }

  lemma HasReference(s: System, id: Id)
    requires Inv(s) && id in s.heap
    ensures s.heap[id].strong > 0 && (s.heap[id].handle ==> s.heap[id].state != Terminated)
  {
    CellFacts(s, None, 0, 0, id);
  }

  lemma IsAllocated(s: System, iopoll: bool, entry: Entry, result: Res)
    requires Inv(s) && CanAnswer(s, iopoll, entry, result)
    ensures entry.Op? ==> entry.id in s.heap
  {
    hide Inv;
    AnswerHolds(s, iopoll, entry, result);
  }

  // One poll. A future that is alive is never `Terminated`.
  ghost function PollFuture(s: System, id: Id): System
    requires Inv(s) && id in s.heap && s.heap[id].handle && !s.heap[id].dropping
  {
    HasReference(s, id);
    match s.heap[id].state
    case Idle(_) => Submit(s, id)
    case Submitted(_) => s
    case Completed(_) => PollReady(s, id)
    case Terminated => assert false; s
  }

  ghost function EndDropFuture(s: System, id: Id): System
    requires Inv(s) && id in s.heap
  {
    HasReference(s, id);
    FinishDrop(s, id)
  }

  ghost function ReturnFromScope(s: System, id: Id): System
    requires Inv(s) && id in s.heap && s.heap[id].scopes > 0
  {
    HasReference(s, id);
    LeaveScope(s, id)
  }

  ghost function AnswerRequest(s: System, iopoll: bool, entry: Entry, result: Res): System
    requires Inv(s) && CanAnswer(s, iopoll, entry, result)
  {
    IsAllocated(s, iopoll, entry, result);
    Answer(s, iopoll, entry, result)
  }

  ghost function Next(s: System, a: Action): System
    requires Inv(s) && Enabled(s, a)
  {
    match a
    case New(id, kind, iopoll, timespec, inScope) => Create(s, id, kind, iopoll, timespec, inScope)
    case Poll(id) => PollFuture(s, id)
    case CancelRequest(id) => Cancel(s, id)
    case BeginDrop(id) => StartDrop(s, id)
    case EndDrop(id) => EndDropFuture(s, id)
    case ScopeReturns(id) => ReturnFromScope(s, id)
    case CallerDrops(fd) => CallerCloses(s, fd)
    case _ => NextOfRing(s, a)
  }

  ghost function NextOfRing(s: System, a: Action): System
    requires Inv(s) && Enabled(s, a) && (a.EnterKernel? || a.KernelAnswers? || a.ProcessCompletions?)
  {
    match a
    case EnterKernel(iopoll, n) => Enter(s, iopoll, n)
    case KernelAnswers(iopoll, entry, result) => AnswerRequest(s, iopoll, entry, result)
    case ProcessCompletions(iopoll) => Reap(s, iopoll)
  }

  lemma StepHolds(s: System, a: Action)
    requires Inv(s) && Enabled(s, a)
    ensures Inv(Next(s, a))
  {
    hide Holds, Counted, LifeCycle, Reap;
    match a {
      case New(id, kind, iopoll, timespec, inScope) => CreateHolds(s, id, kind, iopoll, timespec, inScope);
      case Poll(id) => PollHolds(s, id);
      case CancelRequest(id) => CancelHolds(s, id);
      case BeginDrop(id) => StartDropHolds(s, id);
      case EndDrop(id) => FinishDropHolds(s, id);
      case ScopeReturns(id) => LeaveScopeHolds(s, id);
      case CallerDrops(fd) => CallerClosesHolds(s, fd);
      case EnterKernel(iopoll, n) => EnterHolds(s, iopoll, n);
      case KernelAnswers(iopoll, entry, result) => AnswerHolds(s, iopoll, entry, result);
      case ProcessCompletions(iopoll) => ReapHolds(s, iopoll);
    }
  }

  lemma PollHolds(s: System, id: Id)
    requires Inv(s) && id in s.heap && s.heap[id].handle && !s.heap[id].dropping
    ensures Inv(PollFuture(s, id))
  {
    hide Holds, Counted;
    CellFacts(s, None, 0, 0, id);
    match s.heap[id].state {
      case Idle(_) => SubmitHolds(s, id);
      case Submitted(_) =>
      case Completed(_) => PollReadyHolds(s, id);
      case Terminated =>
    }
  }

  lemma InitialHolds()
    ensures Inv(INITIAL)
  {
    assert Unreaped(EMPTY_RING) == multiset{};
    forall fd
      ensures Fate(INITIAL, fd)
    {
    }
  }

  // The state after any sequence of actions. An action that is not enabled changes nothing.
  ghost function Run(actions: seq<Action>): (s: System)
    ensures Inv(s)
    decreases |actions|
  {
    if actions == [] then
      InitialHolds();
      INITIAL
    else
      var k := |actions| - 1;
      var s := Run(actions[..k]);
      if Enabled(s, actions[k]) then
        StepHolds(s, actions[k]);
        Next(s, actions[k])
      else s
  }

  // Each in-flight counter is the number of its ring's submissions that were not reaped, so
  // neither subtraction from it can underflow.
  lemma CountersAreExact(actions: seq<Action>, iopoll: bool)
    ensures var r := RingOf(Run(actions), iopoll);
      && r.inFlight == |r.sq| + |r.kernel| + |r.cq|
      && |r.sq| <= r.inFlight && |r.cq| <= r.inFlight
  {
    hide Cells, Tracked, Descriptors;
    var s := Run(actions);
    assert Holds(s, None, 0, 0);
    assert |Entries(RingOf(s, iopoll).cq)| == |RingOf(s, iopoll).cq|;
  }

  // The reference count is the number of holders; a pooled completion has no other holder.
  lemma ReferencesAreCounted(actions: seq<Action>, id: Id)
    ensures var s := Run(actions);
      id in s.heap ==>
        var c := s.heap[id];
        && c.strong == B(c.handle) + c.scopes + B(c.state.Submitted?) + B(id in s.pool)
        && (id in s.pool ==> c.strong == 1 && !c.handle && c.scopes == 0 && !c.state.Submitted?)
  {
    hide Cells, Tracked, Descriptors, CounterExact, LifeCycle;
    var s := Run(actions);
    if id in s.heap {
      CellFacts(s, None, 0, 0, id);
    }
  }

  // Whatever the kernel or the rings still hold is allocated and submitted; so no result is
  // delivered to a request that is idle, complete or freed, and none is delivered twice.
  lemma ResultsFindTheirRequest(actions: seq<Action>, iopoll: bool, id: Id)
    ensures var s := Run(actions);
      var r := RingOf(s, iopoll);
      && (Op(id) in Unreaped(r) ==>
            id in s.heap && s.heap[id].state.Submitted? && s.heap[id].iopoll == iopoll && id !in s.pool)
      && Unreaped(r)[Op(id)] <= 1
  {
    hide Cells, Descriptors, CounterExact, LifeCycle, Unreaped;
    var s := Run(actions);
    assert Tracked(s.heap, iopoll, RingOf(s, iopoll));
    if id in s.heap {
      CellFacts(s, None, 0, 0, id);
    }
  }

  // A completed request reports the kernel's result, except that `CANCELED` is reported only if
  // somebody canceled the request; a request that was stopped by its timeout reports `TIME`, and
  // one that was canceled before it was submitted `CANCELED`.
  lemma CanceledMeansRequested(actions: seq<Action>, id: Id)
    ensures var s := Run(actions);
      id in s.heap && s.heap[id].state.Completed? ==>
        var c := s.heap[id];
        && (c.state.result == Canceled ==> c.requested)
        && (c.answer == Some(Canceled) && !c.requested ==> c.state.result == TimedOut)
        && (c.answer.Some? && c.answer.value != Canceled ==> c.state.result == c.answer.value)
        && (c.answer == None ==> c.state.result == Canceled)
  {
    hide Cells, Descriptors, CounterExact, Counted, Tracked;
    var s := Run(actions);
    if id in s.heap {
      CellFacts(s, None, 0, 0, id);
    }
  }

  // Memory that a request borrows is not in the kernel's hands once its future is gone.
  lemma BorrowsEndWithTheFuture(actions: seq<Action>, iopoll: bool, id: Id)
    ensures var s := Run(actions);
      id in s.heap && !s.heap[id].handle && s.heap[id].kind != Plain(true) ==> Op(id) !in Unreaped(RingOf(s, iopoll))
  {
    hide Cells, Descriptors, CounterExact, Counted, Unreaped;
    var s := Run(actions);
    assert Tracked(s.heap, iopoll, RingOf(s, iopoll));
    if id in s.heap {
      CellFacts(s, None, 0, 0, id);
    }
  }

  // Over the whole life of a descriptor, from the open that makes it through its caller's hands to
  // the close that it is given to, it is handed out at most once and closed at most once. While a
  // living future is responsible for it, it is not in a caller's hands; otherwise it is in its
  // caller's hands or has been closed, and never both.
  lemma DescriptorsAreSettledOnce(actions: seq<Action>, fd: Fd)
    ensures var s := Run(actions);
      && s.closes[fd] <= 1 && s.handed[fd] <= 1 && s.back[fd] <= s.handed[fd]
      && ((exists id :: id in s.heap && Responsible(s.heap[id], fd)) ==> s.handed[fd] == s.back[fd])
      && (fd in s.known && (forall id :: id in s.heap ==> !Responsible(s.heap[id], fd)) ==>
            s.closes[fd] + (s.handed[fd] - s.back[fd]) == 1)
  {
    hide *;
    OwnerIsResponsible(Run(actions), fd);
    FateFacts(Run(actions), fd);
  }

  lemma OwnerIsResponsible(s: System, fd: Fd)
    requires Inv(s)
    ensures fd in s.owner <==> exists id :: id in s.heap && Responsible(s.heap[id], fd)
  {
    hide Cells, Tracked, CounterExact, Responsible, Balanced;
    if fd in s.owner {
      assert Responsible(s.heap[s.owner[fd]], fd);
    }
  }

  lemma FateFacts(s: System, fd: Fd)
    requires Inv(s)
    ensures s.closes[fd] <= 1 && s.back[fd] <= s.handed[fd] <= 1
    ensures fd in s.owner ==> s.handed[fd] == s.back[fd]
    ensures fd in s.known && fd !in s.owner ==> s.closes[fd] + (s.handed[fd] - s.back[fd]) == 1
  {
    hide Cells, Tracked, CounterExact, Owned, ClosedByKernel;
    assert Fate(s, fd);
  }

  // What has been closed for good stays so: nobody becomes responsible for it again, it never comes
  // into a caller's hands again, and it is not closed again.
  lemma {:induction false} ClosedForGood(a: seq<Action>, b: seq<Action>, fd: Fd)
    requires IsClosed(Run(a), fd)
    ensures var t := Run(a + b); IsClosed(t, fd) && t.closes[fd] == 1 && !InHands(t, fd)
    decreases |b|
  {
    hide Holds, Enabled, Next;
    if b == [] {
      assert a + b == a;
      ClosedIsNotHeld(Run(a), fd);
    } else {
      var k := |b| - 1;
      ClosedForGood(a, b[..k], fd);
      assert (a + b)[..|a + b| - 1] == a + b[..k] && (a + b)[|a + b| - 1] == b[k];
      var s := Run(a + b[..k]);
      if Enabled(s, b[k]) {
        StepHolds(s, b[k]);
        StaysClosed(s, b[k], fd);
        ClosedIsNotHeld(Next(s, b[k]), fd);
      }
    }
  }

  lemma ClosedIsNotHeld(s: System, fd: Fd)
    requires Inv(s) && s.closes[fd] >= 1
    ensures s.closes[fd] == 1 && !InHands(s, fd)
  {
    hide Cells, Tracked, CounterExact, Responsible, ClosedByKernel;
    assert Fate(s, fd);
  }

  // The future of a close returns, or its drop ends: its descriptor has been closed once, whether
  // it came from elsewhere or was handed out by an open.
  lemma CloseCloses(s: System, id: Id)
    requires Inv(s) && id in s.heap && s.heap[id].kind.Close? && s.heap[id].handle && s.heap[id].state.Completed?
    ensures s.heap[id].strong > 0
    ensures var fd := s.heap[id].kind.given;
      && PollReady(s, id).closes[fd] == 1 && fd !in PollReady(s, id).owner
      && FinishDrop(s, id).closes[fd] == 1 && fd !in FinishDrop(s, id).owner
  {
    hide Inv, ReturnCompletion, Release;
    FateOfClose(s, id);
    FrameOfReturn(HandOver(s, id), id);
    FrameOfReturn(Abandon(s, id), id);
  }

  // Giving back a completion without a descriptor closes nothing.
  lemma FrameOfReturn(s: System, id: Id)
    requires id in s.heap && s.heap[id].strong > 0 && s.heap[id].fd == None
    ensures var t := ReturnCompletion(s, id);
      t == s.(heap := t.heap, pool := t.pool)
    ensures var t := Release(s, id);
      t == s.(heap := t.heap)
  {
  }

  lemma FateOfClose(s: System, id: Id)
    requires Inv(s) && id in s.heap && s.heap[id].kind.Close? && s.heap[id].handle && s.heap[id].state.Completed?
    ensures var c := s.heap[id];
      && c.strong > 0 && c.fd == Some(c.kind.given)
      && s.closes[c.kind.given] == B(c.state.result != Canceled)
  {
    hide Cells, Tracked, CounterExact, Counted, Made, Reported, MustWait;
    CellFacts(s, None, 0, 0, id);
    HasReference(s, id);
    assert Responsible(s.heap[id], s.heap[id].kind.given);
    assert Fate(s, s.heap[id].kind.given);
  }

  // When the future of an open returns, its descriptor goes to the caller; when it is dropped
  // with its result, the descriptor is closed.
  lemma OpenHandsOutOrCloses(s: System, id: Id)
    requires Inv(s) && id in s.heap && s.heap[id].kind.Open? && s.heap[id].handle
    requires s.heap[id].state.Completed? && s.heap[id].state.result.Success?
    ensures s.heap[id].strong > 0
    ensures var fd := s.heap[id].state.result.value;
      && PollReady(s, id).closes[fd] == 0 && InHands(PollReady(s, id), fd) && PollReady(s, id).handed[fd] == 1
      && FinishDrop(s, id).closes[fd] == 1 && FinishDrop(s, id).handed[fd] == 0 && fd !in FinishDrop(s, id).owner
  {
    hide Inv, ReturnCompletion, Release;
    FateOfOpen(s, id);
    FrameOfReturn(HandOver(s, id), id);
    FrameOfReturn(Abandon(s, id), id);
  }

  lemma FateOfOpen(s: System, id: Id)
    requires Inv(s) && id in s.heap && s.heap[id].kind.Open? && s.heap[id].handle
    requires s.heap[id].state.Completed? && s.heap[id].state.result.Success?
    ensures var fd := s.heap[id].state.result.value;
      s.heap[id].strong > 0 && s.handed[fd] == 0 == s.back[fd] && s.closes[fd] == 0 && fd in s.known
  {
    hide Cells, Tracked, CounterExact, Counted, Reported, MustWait;
    CellFacts(s, None, 0, 0, id);
    HasReference(s, id);
    var fd := s.heap[id].state.result.value;
    assert Responsible(s.heap[id], fd);
    assert Fate(s, fd);
  }

  ghost predicate IsClosed(s: System, fd: Fd) {
    fd in s.known && fd !in s.owner && s.closes[fd] >= 1
  }

  // No step touches a descriptor that was closed for good.
  lemma StaysClosed(s: System, a: Action, fd: Fd)
    requires Inv(s) && Enabled(s, a) && IsClosed(s, fd)
    ensures IsClosed(Next(s, a), fd)
  {
    hide Inv, Create, PollReady, Submit, Cancel, FinishDrop, LeaveScope, Enter, Answer, Reap;
    ClosedIsNotHeld(s, fd);
    match a {
      case New(id, kind, iopoll, timespec, inScope) => CreateKeepsClosed(s, id, kind, iopoll, timespec, inScope, fd);
      case Poll(id) => PollKeepsClosed(s, id, fd);
      case CancelRequest(id) => CancelFrame(s, id);
      case BeginDrop(id) => CancelFrame(s, id);
      case EndDrop(id) => HasReference(s, id); DropKeepsClosed(s, id, fd);
      case ScopeReturns(id) => HasReference(s, id); ScopeKeepsClosed(s, id, fd);
      case CallerDrops(x) =>
      case EnterKernel(iopoll, n) => EnterFrame(s, iopoll, n);
      case KernelAnswers(iopoll, entry, result) =>
        IsAllocated(s, iopoll, entry, result);
        AnswerKeepsClosed(s, iopoll, entry, result, fd);
      case ProcessCompletions(iopoll) => ReapFrame(s, iopoll);
    }
  }

  lemma CreateKeepsClosed(s: System, id: Id, kind: Kind, iopoll: bool, timespec: bool, inScope: bool, fd: Fd)
    requires CanCreate(s, id, kind) && IsClosed(s, fd) && !InHands(s, fd)
    ensures IsClosed(Create(s, id, kind, iopoll, timespec, inScope), fd)
  {
  }

  lemma ReturnFrame(s: System, id: Id)
    requires id in s.heap && s.heap[id].strong > 0
    ensures var t := ReturnCompletion(s, id);
      && t.known == s.known && t.owner == s.owner && t.ring == s.ring && t.ringPoll == s.ringPoll
      && forall fd :: t.closes[fd] >= s.closes[fd]
    ensures var t := Release(s, id);
      t.known == s.known && t.owner == s.owner && forall fd :: t.closes[fd] >= s.closes[fd]
  {
  }

  lemma PollKeepsClosed(s: System, id: Id, fd: Fd)
    requires Inv(s) && Enabled(s, Poll(id)) && IsClosed(s, fd)
    ensures IsClosed(PollFuture(s, id), fd)
  {
    hide Holds, ReturnCompletion, Settled;
    HasReference(s, id);
    if s.heap[id].state.Completed? {
      ReturnFrame(HandOver(s, id), id);
    }
  }

  lemma CancelFrame(s: System, id: Id)
    requires id in s.heap
    ensures var t := Cancel(s, id);
      id in t.heap && t == s.(heap := t.heap, ring := t.ring, ringPoll := t.ringPoll)
  {
  }

  lemma EnterFrame(s: System, iopoll: bool, n: nat)
    requires n <= |RingOf(s, iopoll).sq|
    ensures var t := Enter(s, iopoll, n);
      t == s.(ring := t.ring, ringPoll := t.ringPoll)
  {
  }

  lemma DropKeepsClosed(s: System, id: Id, fd: Fd)
    requires id in s.heap && s.heap[id].strong > 0 && IsClosed(s, fd)
    ensures IsClosed(FinishDrop(s, id), fd)
  {
    hide Release, Settled;
    ReturnFrame(Abandon(s, id), id);
  }

  lemma ScopeKeepsClosed(s: System, id: Id, fd: Fd)
    requires id in s.heap && s.heap[id].scopes > 0 && s.heap[id].strong > 0 && IsClosed(s, fd)
    ensures IsClosed(LeaveScope(s, id), fd)
  {
    hide ReturnCompletion;
    var c := s.heap[id];
    ReturnFrame(s.(heap := s.heap[id := c.(scopes := c.scopes - 1)]), id);
  }

  lemma AnswerKeepsClosed(s: System, iopoll: bool, entry: Entry, result: Res, fd: Fd)
    requires CanAnswer(s, iopoll, entry, result) && (entry.Op? ==> entry.id in s.heap) && IsClosed(s, fd)
    ensures IsClosed(Answer(s, iopoll, entry, result), fd)
  {
  }

  lemma ReapFrame(s: System, iopoll: bool)
    requires Inv(s)
    ensures var t := Reap(s, iopoll);
      t.known == s.known && t.owner == s.owner && forall fd :: t.closes[fd] >= s.closes[fd]
  {
    hide Holds, Reaped;
    ReapedFrame(s, iopoll, |RingOf(s, iopoll).cq|);
  }

  lemma {:induction false} ReapedFrame(s: System, iopoll: bool, k: nat)
    requires Inv(s) && k <= |RingOf(s, iopoll).cq|
    ensures var t := Reaped(s, iopoll, k);
      t.known == s.known && t.owner == s.owner && forall fd :: t.closes[fd] >= s.closes[fd]
  {
    hide Holds, ReapOne;
    if k > 0 {
      var u := Reaped(s, iopoll, k - 1);
      ReapedFrame(s, iopoll, k - 1);
      ReapOneHolds(u, iopoll, if iopoll then 0 else k - 1, if iopoll then k - 1 else 0);
      ReapOneFrame(u, iopoll);
    }
  }

  lemma ReapOneFrame(s: System, iopoll: bool)
    requires var r := RingOf(s, iopoll);
      r.cq != [] && (r.cq[0].entry.Op? ==>
        r.cq[0].entry.id in s.heap && s.heap[r.cq[0].entry.id].state.Submitted? && s.heap[r.cq[0].entry.id].strong > 0)
    ensures var t := ReapOne(s, iopoll);
      t.known == s.known && t.owner == s.owner && forall fd :: t.closes[fd] >= s.closes[fd]
  {
    hide ReturnCompletion;
    var r := RingOf(s, iopoll);
    var cqe := r.cq[0];
    var t := WithRing(s, iopoll, r.(cq := r.cq[1..]));
    if cqe.entry.Op? {
      var c := s.heap[cqe.entry.id];
      var result := if cqe.result == Canceled && !c.state.canceled then TimedOut else cqe.result;
      ReturnFrame(t.(heap := s.heap[cqe.entry.id := c.(state := Completed(result))]), cqe.entry.id);
    }
  }
}
