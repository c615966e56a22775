// What an io scope holds.
module CompletionScopes {
  import opened Bytes
  import opened CompletionSpec
  import opened CompletionInvariant
  import opened CompletionRuns

  // The step from `s` to `t` leaves the request `id` in its scopes, and allocated if there are any.
  ghost predicate Kept(s: System, t: System, id: Id) {
    && (id in t.heap ==> id in s.heap && t.heap[id].scopes == s.heap[id].scopes && t.heap[id].kind == s.heap[id].kind)
    && (id in s.heap && s.heap[id].scopes > 0 ==> id in t.heap)
  }

  lemma KeptTrans(s: System, t: System, u: System, id: Id)
    requires Kept(s, t, id) && Kept(t, u, id)
    ensures Kept(s, u, id)
  {
  }

  // Giving back a reference frees nothing that a scope holds.
  lemma KeptReturn(s: System, x: Id, id: Id)
    requires x in s.heap && s.heap[x].strong > s.heap[x].scopes
    ensures Kept(s, ReturnCompletion(s, x), id) && Kept(s, Release(s, x), id)
  {
  }

  lemma KeptPoll(s: System, x: Id, id: Id)
    requires Inv(s) && Enabled(s, Poll(x))
    ensures Kept(s, PollFuture(s, x), id)
  {
    hide Holds, ReturnCompletion, Settled;
    HasReference(s, x);
    CellFacts(s, None, 0, 0, x);
    if s.heap[x].state.Completed? {
      KeptReturn(HandOver(s, x), x, id);
      KeptTrans(s, HandOver(s, x), PollReady(s, x), id);
    }
  }

  lemma KeptCancel(s: System, x: Id, id: Id)
    requires x in s.heap
    ensures Kept(s, Cancel(s, x), id) && Kept(s, StartDrop(s, x), id)
  {
  }

  lemma KeptDrop(s: System, x: Id, id: Id)
    requires Inv(s) && Enabled(s, EndDrop(x))
    ensures Kept(s, EndDropFuture(s, x), id)
  {
    hide Holds, Release, Settled;
    HasReference(s, x);
    CellFacts(s, None, 0, 0, x);
    KeptReturn(Abandon(s, x), x, id);
    KeptTrans(s, Abandon(s, x), FinishDrop(s, x), id);
  }

  lemma KeptScope(s: System, x: Id, id: Id)
    requires x in s.heap && s.heap[x].scopes > 0 && s.heap[x].strong > 0 && x != id
    ensures Kept(s, LeaveScope(s, x), id)
  {
  }

  lemma KeptAnswer(s: System, iopoll: bool, entry: Entry, result: Res, id: Id)
    requires entry.Op? ==> entry.id in s.heap
    ensures Kept(s, Answer(s, iopoll, entry, result), id)
  {
  }

  lemma KeptReapOne(s: System, iopoll: bool, n: nat, m: nat, id: Id)
    requires Holds(s, None, n, m) && RingOf(s, iopoll).cq != []
    requires var e := RingOf(s, iopoll).cq[0].entry;
      e.Op? ==> e.id in s.heap && s.heap[e.id].state.Submitted? && s.heap[e.id].strong > 0
    ensures Kept(s, ReapOne(s, iopoll), id)
  {
    hide Holds, ReturnCompletion, LifeCycle;
    var r := RingOf(s, iopoll);
    var cqe := r.cq[0];
    if cqe.entry.Op? {
      var x := cqe.entry.id;
      CellFacts(s, None, n, m, x);
      var c := s.heap[x];
      var result := if cqe.result == Canceled && !c.state.canceled then TimedOut else cqe.result;
      var u := WithRing(s, iopoll, r.(cq := r.cq[1..])).(heap := s.heap[x := c.(state := Completed(result))]);
      assert Kept(s, u, id);
      KeptReturn(u, x, id);
      KeptTrans(s, u, ReapOne(s, iopoll), id);
    }
  }

  lemma {:induction false} KeptReaped(s: System, iopoll: bool, k: nat, id: Id)
    requires Inv(s) && k <= |RingOf(s, iopoll).cq|
    ensures Kept(s, Reaped(s, iopoll, k), id)
  {
    hide Holds, ReapOne;
    if k > 0 {
      var u := Reaped(s, iopoll, k - 1);
      KeptReaped(s, iopoll, k - 1, id);
      ReapOneHolds(u, iopoll, if iopoll then 0 else k - 1, if iopoll then k - 1 else 0);
      KeptReapOne(u, iopoll, if iopoll then 0 else k - 1, if iopoll then k - 1 else 0, id);
      KeptTrans(s, u, ReapOne(u, iopoll), id);
    }
  }

  lemma KeptReap(s: System, iopoll: bool, id: Id)
    requires Inv(s)
    ensures Kept(s, Reap(s, iopoll), id)
  {
    hide Holds, Reaped;
    KeptReaped(s, iopoll, |RingOf(s, iopoll).cq|, id);
  }

  // A request that a scope holds is not created anew.
  lemma HeldIsNotNew(s: System, a: Action, id: Id)
    requires Inv(s) && Enabled(s, a) && id in s.heap && s.heap[id].scopes > 0
    ensures !IsNew(a, id)
  {
    hide Tracked, Descriptors, CounterExact, LifeCycle;
    CellFacts(s, None, 0, 0, id);
  }

  predicate IsNew(a: Action, id: Id) {
    a.New? && a.id == id
  }

  lemma StepKeeps(s: System, a: Action, id: Id)
    requires Inv(s) && Enabled(s, a) && a != ScopeReturns(id) && !IsNew(a, id)
    ensures Kept(s, Next(s, a), id)
  {
    hide Holds, PollFuture, Cancel, StartDrop, EndDropFuture, LeaveScope, Enter, Answer, Reap;
    match a {
      case New(x, kind, iopoll, timespec, inScope) =>
      case Poll(x) => KeptPoll(s, x, id);
      case CancelRequest(x) => KeptCancel(s, x, id);
      case BeginDrop(x) => KeptCancel(s, x, id);
      case EndDrop(x) => KeptDrop(s, x, id);
      case ScopeReturns(x) =>
        HasReference(s, x);
        KeptScope(s, x, id);
      case CallerDrops(fd) =>
      case EnterKernel(iopoll, n) => EnterFrame(s, iopoll, n);
      case KernelAnswers(iopoll, entry, result) =>
        IsAllocated(s, iopoll, entry, result);
        KeptAnswer(s, iopoll, entry, result, id);
      case ProcessCompletions(iopoll) => KeptReap(s, iopoll, id);
    }
  }

  ghost predicate NoneNew(b: seq<Action>, id: Id) {
    forall i :: 0 <= i < |b| ==> !IsNew(b[i], id)
  }

  // While no scope returns it and, if none holds it, nobody creates it anew.
  lemma {:induction false} RunKeeps(a: seq<Action>, b: seq<Action>, id: Id)
    requires id in Run(a).heap && ScopeReturns(id) !in b
    requires Run(a).heap[id].scopes > 0 || NoneNew(b, id)
    ensures Kept(Run(a), Run(a + b), id)
    decreases |b|
  {
    hide Holds, Next, Enabled;
    if b == [] {
      assert a + b == a;
    } else {
      var k := |b| - 1;
      var s := Run(a + b[..k]);
      assert (a + b)[..|a + b| - 1] == a + b[..k] && (a + b)[|a + b| - 1] == b[k];
      assert b[k] in b;
      RunKeeps(a, b[..k], id);
      if Enabled(s, b[k]) {
        if id in s.heap && s.heap[id].scopes > 0 {
          HeldIsNotNew(s, b[k], id);
        }
        StepKeeps(s, b[k], id);
        KeptTrans(Run(a), s, Run(a + b), id);
      }
    }
  }

  // A request that is created inside a scope belongs to it: until the scope gives it back it stays
  // allocated, with the kind it was created with, whatever its future, the kernel and the event loop do,
  // so the scope can cancel it. A request created outside belongs to no scope.
  lemma ScopeHoldsItsRequests(a: seq<Action>, n: Action, b: seq<Action>)
    requires n.New? && Enabled(Run(a), n) && ScopeReturns(n.id) !in b && (n.inScope || NoneNew(b, n.id))
    ensures var t := Run(a + [n] + b);
      if n.inScope then
        && n.id in t.heap && t.heap[n.id].scopes == 1 && t.heap[n.id].kind == n.kind
        && Enabled(t, CancelRequest(n.id)) && Enabled(t, ScopeReturns(n.id))
      else !Enabled(t, ScopeReturns(n.id))
  {
    hide Holds, Run, CanCreate;
    RunOne(a, n);
    RunKeeps(a + [n], b, n.id);
  }

  lemma RunOne(a: seq<Action>, x: Action)
    requires Enabled(Run(a), x)
    ensures Run(a + [x]) == Next(Run(a), x)
  {
    hide Holds, Next, Enabled;
    assert (a + [x])[..|a|] == a;
  }
}
