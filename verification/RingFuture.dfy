// The objects that run the completion protocol.
module Completions {
  import opened Bytes
  import opened CompletionSpec
  import opened CompletionInvariant
  import Spec = CompletionSpec
  import Runs = CompletionRuns

  datatype PollResult = Pending | Ready(result: Res) | Panicked

  // The kernel's part in one call of `submit_and_complete_io`: how many submissions it accepts,
  // and the results that it posts.
  datatype Round = Round(submissions: nat, answers: seq<(Entry, Res)>)

  // The parts of `TaskState` that I/O uses. The last five fields record what happens to
  // descriptors.
  class TaskState {
    var heap: map<Id, Cell>
    var pool: seq<Id>
    var ring: Ring
    var ringPoll: Ring
    var closes: multiset<Fd>
    var handed: multiset<Fd>
    var back: multiset<Fd>
    var known: set<Fd>
    var owner: map<Fd, Id>

    function Value(): System
      reads this
    {
      System(heap, pool, ring, ringPoll, closes, handed, back, known, owner)
    }

    ghost predicate Valid()
      reads this
    {
      Inv(Value())
    }

    // Drops one reference.
    method DropReference(id: Id)
      requires id in heap && heap[id].strong > 0
      modifies this
      ensures Value() == Spec.Release(old(Value()), id)
    {
      var c := heap[id];
      if c.strong == 1 {
        heap := heap - {id};
        closes := closes + One(c.fd);
      } else {
        heap := heap[id := c.(strong := c.strong - 1)];
      }
    }

    method ReturnCompletion(id: Id)
      requires id in heap && heap[id].strong > 0
      modifies this
      ensures Value() == Spec.ReturnCompletion(old(Value()), id)
      // The last reference goes to the pool while there is room.
      ensures old(heap[id]).strong == 1 && old(|pool|) < 4096 ==> pool == old(pool) + [id] && heap == old(heap)
      ensures old(heap[id]).strong == 1 && old(|pool|) >= 4096 ==> pool == old(pool) && heap == old(heap) - {id}
      ensures old(heap[id]).strong > 1 ==>
        pool == old(pool) && id in heap && heap[id].strong == old(heap[id]).strong - 1
    {
      if |pool| < MAX_COMPLETION_POOL_ENTRIES && heap[id].strong == 1 {
        pool := pool + [id];
      } else {
        DropReference(id);
      }
    }

    method Submit(iopoll: bool, entries: seq<Entry>)
      modifies this
      ensures Value() == Push(old(Value()), iopoll, entries)
    {
      if iopoll {
        ringPoll := ringPoll.(sq := ringPoll.sq + entries, inFlight := ringPoll.inFlight + |entries|);
      } else {
        ring := ring.(sq := ring.sq + entries, inFlight := ring.inFlight + |entries|);
      }
    }

    method Cancel(id: Id)
      requires Valid() && id in heap
      modifies this
      ensures Valid() && Value() == Spec.Cancel(old(Value()), id)
    {
      hide Holds;
      CancelHolds(Value(), id);
      var c := heap[id];
      match c.state {
        case Idle(_) => heap := heap[id := c.(state := Completed(Canceled), requested := true)];
        case Submitted(canceled) =>
          if !canceled {
            heap := heap[id := c.(state := Submitted(true), requested := true)];
            Submit(c.iopoll, [CancelOf(id)]);
          }
        case _ =>
      }
    }

    // `Completion::finish_close`.
    method FinishClose(id: Id, result: Res)
      requires id in heap
      modifies this`heap, this`closes
      ensures heap == old(heap)[id := old(heap[id]).(fd := None)]
      ensures closes == old(closes) + One(Spec.FinishClose(old(heap[id]), result))
    {
      var c := heap[id];
      heap := heap[id := c.(fd := None)];
      if c.fd.Some? && result == Canceled {
        closes := closes + multiset{c.fd.value};
      }
    }

    // Hands the result of a completed request to its caller.
    method TakeResult(id: Id)
      requires id in heap && heap[id].state.Completed?
      modifies this
      ensures Value() == HandOver(old(Value()), id)
    {
      hide Settled, Opened, Spec.FinishClose, One;
      var c := heap[id];
      var result := c.state.result;
      FinishClose(id, result);
      handed := handed + One(Opened(c.kind, result));
      owner := owner - Settled(c, result);
      UpdateTwice(old(heap), id, c.(fd := None), c.(state := Terminated, handle := false, fd := None));
      heap := heap[id := heap[id].(state := Terminated, handle := false)];
    }

    method FinishPoll(id: Id)
      requires id in heap && heap[id].state.Completed? && heap[id].strong > 0
      modifies this
      ensures Value() == PollReady(old(Value()), id)
    {
      hide Spec.ReturnCompletion, HandOver;
      KeepsCount(Value(), id);
      TakeResult(id);
      ReturnCompletion(id);
    }

    // One poll of a ring future. An aborted task panics instead of waiting.
    method Poll(id: Id, aborted: bool) returns (r: PollResult)
      requires Valid() && id in heap && heap[id].handle && !heap[id].dropping
      modifies this
      ensures Valid()
      ensures match old(heap[id]).state
        case Idle(_) =>
          if aborted then r == Panicked && Value() == old(Value())
          else r == Pending && Value() == Spec.Submit(old(Value()), id)
        case Submitted(_) => r == (if aborted then Panicked else Pending) && Value() == old(Value())
        case Completed(result) =>
          r == Ready(result) && old(heap[id]).strong > 0 && Value() == PollReady(old(Value()), id)
        case Terminated => false
    {
      hide Holds, Counted, PollReady;
      CellFacts(Value(), None, 0, 0, id);
      var c := heap[id];
      match c.state {
        case Idle(timespec) =>
          if aborted {
            return Panicked;
          }
          SubmitHolds(Value(), id);
          heap := heap[id := c.(state := Submitted(false), strong := c.strong + 1, submitted := true)];
          Submit(c.iopoll, if timespec then [Op(id), Timeout(id)] else [Op(id)]);
          return Pending;
        case Submitted(_) =>
          return if aborted then Panicked else Pending;
        case Completed(result) =>
          PollReadyHolds(Value(), id);
          FinishPoll(id);
          return Ready(result);
        case Terminated =>
          assert false;
      }
    }

    method GetNextCqe(iopoll: bool) returns (cqe: Option<Cqe>)
      modifies this`ring, this`ringPoll
      ensures cqe.None? <==> old(RingOf(Value(), iopoll)).cq == []
      ensures cqe.None? ==> ring == old(ring) && ringPoll == old(ringPoll)
      ensures cqe.Some? ==>
        var r := old(RingOf(Value(), iopoll));
        cqe.value == r.cq[0] && Value() == WithRing(old(Value()), iopoll, r.(cq := r.cq[1..]))
    {
      var r := if iopoll then ringPoll else ring;
      if r.cq == [] {
        return None;
      }
      if iopoll {
        ringPoll := ringPoll.(cq := r.cq[1..]);
      } else {
        ring := ring.(cq := r.cq[1..]);
      }
      return Some(r.cq[0]);
    }

    // One round of `process_completions`, after the entry was taken from the queue of `s`. The
    // two panics cannot happen.
    method Complete(cqe: Cqe, iopoll: bool, ghost s: System)
      requires var r := RingOf(s, iopoll);
        r.cq != [] && cqe == r.cq[0] && Value() == WithRing(s, iopoll, r.(cq := r.cq[1..]))
      requires cqe.entry.Op? ==>
        cqe.entry.id in heap && heap[cqe.entry.id].state.Submitted? && heap[cqe.entry.id].strong > 0
      modifies this
      ensures Value() == ReapOne(s, iopoll)
    {
      hide Spec.ReturnCompletion;
      if !cqe.entry.Op? {
        return;
      }
      var id := cqe.entry.id;
      var c := heap[id];
      match c.state {
        case Idle(_) =>
          assert false;
        case Submitted(canceled) =>
          var result := if cqe.result == Canceled && !canceled then TimedOut else cqe.result;
          heap := heap[id := c.(state := Completed(result))];
        case _ =>
          assert false;
      }
      ReturnCompletion(id);
    }

    // Drains the completion queue.
    method ProcessCompletions(iopoll: bool)
      requires Valid()
      modifies this
      ensures Valid() && Value() == Reap(old(Value()), iopoll)
    {
      hide Holds, ReapOne, Reaped, Reap, WithRing;
      ghost var s := Value();
      var completions := 0;
      ReapedNone(s, iopoll);
      while RingOf(Value(), iopoll).cq != []
        invariant completions <= |RingOf(s, iopoll).cq| && Value() == Reaped(s, iopoll, completions)
        decreases |RingOf(s, iopoll).cq| - completions
      {
        ReapedNext(s, iopoll, completions);
        var cqe := GetNextCqe(iopoll);
        Complete(cqe.value, iopoll, Reaped(s, iopoll, completions));
        completions := completions + 1;
      }
      CountEnough(Value(), iopoll, completions);
      DecrementInFlight(iopoll, completions);
      ReapHolds(s, iopoll);
      ReapIsReaped(s, iopoll);
    }

    method DecrementInFlight(iopoll: bool, amount: nat)
      requires amount <= RingOf(Value(), iopoll).inFlight
      modifies this`ring, this`ringPoll
      ensures var r := RingOf(old(Value()), iopoll);
        Value() == WithRing(old(Value()), iopoll, r.(inFlight := r.inFlight - amount))
    {
      if iopoll {
        ringPoll := ringPoll.(inFlight := ringPoll.inFlight - amount);
      } else {
        ring := ring.(inFlight := ring.inFlight - amount);
      }
    }

    // The kernel posts results, each one that it is able to.
    method KernelPosts(iopoll: bool, answers: seq<(Entry, Res)>)
      requires Valid()
      modifies this
      ensures Valid() && Stable(old(heap), heap)
    {
      hide Holds, Stable;
      StableSelf(heap);
      for i := 0 to |answers|
        invariant Valid() && Stable(old(heap), heap)
      {
        var (entry, result) := answers[i];
        if CanAnswer(Value(), iopoll, entry, result) {
          ghost var before := heap;
          Post(iopoll, entry, result);
          StableTrans(old(heap), before, heap);
        }
      }
    }

    method Post(iopoll: bool, entry: Entry, result: Res)
      requires Valid() && CanAnswer(Value(), iopoll, entry, result)
      modifies this
      ensures Valid() && Stable(old(heap), heap)
    {
      hide Holds, CanAnswer, Answer, Stable;
      AnswerHolds(Value(), iopoll, entry, result);
      AnswerFrame(Value(), iopoll, entry, result);
      var next := Answer(Value(), iopoll, entry, result);
      heap, ring, ringPoll := next.heap, next.ring, next.ringPoll;
      closes, known, owner := next.closes, next.known, next.owner;
      assert Value() == next;
    }

    // Submits and reaps. The subtraction of the submissions from the statistics is exact.
    method SubmitAndCompleteIo(iopoll: bool, round: Round)
      requires Valid()
      modifies this
      ensures Valid() && Stable(old(heap), heap)
    {
      hide Holds, Stable, Reap, RingOf, WithRing;
      StableSelf(heap);
      if iopoll && ringPoll.inFlight == 0 {
        return;
      }
      var queued := |RingOf(Value(), iopoll).sq|;
      var submissions := if round.submissions < queued then round.submissions else queued;
      EnterHolds(Value(), iopoll, submissions);
      var inFlight: nat := RingOf(Value(), iopoll).inFlight - submissions;
      var next := Enter(Value(), iopoll, submissions);
      EnterKeepsHeap(Value(), iopoll, submissions);
      ring, ringPoll := next.ring, next.ringPoll;
      assert Value() == next;
      KernelPosts(iopoll, round.answers);
      ghost var before := Value();
      ProcessCompletions(iopoll);
      ReapIsStable(before, iopoll);
      StableTrans(old(heap), before.heap, heap);
    }

    // `Drop`. It blocks until the request is complete if it has to; `returned` says whether the
    // kernel's rounds sufficed.
    method DropFuture(id: Id, rounds: seq<Round>) returns (returned: bool)
      requires Valid() && id in heap && heap[id].handle && !heap[id].dropping
      modifies this
      ensures Valid()
      ensures returned && id in heap ==>
        !heap[id].handle && (old(heap[id]).kind != Plain(true) ==> !heap[id].state.Submitted?)
      ensures returned && old(heap[id]).kind.Close? ==> closes[old(heap[id]).kind.given] == 1
    {
      hide Holds, Stable, StartDrop, FinishDrop;
      var kind := heap[id].kind;
      BeginDrop(id);
      var i := 0;
      while MustWait(heap[id]) && i < |rounds|
        invariant Valid() && id in heap && heap[id].dropping && heap[id].handle && heap[id].kind == kind
        invariant i <= |rounds|
        decreases |rounds| - i
      {
        ghost var before := heap;
        SubmitAndCompleteIo(heap[id].iopoll, rounds[i]);
        StableAt(before, heap, id);
        i := i + 1;
      }
      if MustWait(heap[id]) {
        return false;
      }
      FinishDropFacts(Value(), id);
      EndDrop(id);
      return true;
    }

    // The first step of `Drop` cancels the request.
    method BeginDrop(id: Id)
      requires Valid() && id in heap && heap[id].handle && !heap[id].dropping
      modifies this
      ensures Valid() && Value() == StartDrop(old(Value()), id)
      ensures id in heap && heap[id].dropping && heap[id].handle && heap[id].kind == old(heap[id]).kind
    {
      hide Holds, Counted, LifeCycle;
      StartDropHolds(Value(), id);
      Cancel(id);
      heap := heap[id := heap[id].(dropping := true)];
      assert Value() == StartDrop(old(Value()), id);
    }

    // The last step settles the result that nobody will see, and lets go of the request.
    method EndDrop(id: Id)
      requires id in heap && heap[id].strong > 0
      modifies this
      ensures Value() == FinishDrop(old(Value()), id)
    {
      hide Spec.Release, Abandon;
      KeepsCount(Value(), id);
      AbandonResult(id);
      DropReference(id);
    }

    method AbandonResult(id: Id)
      requires id in heap
      modifies this
      ensures Value() == Abandon(old(Value()), id)
    {
      hide Settled, Opened, Spec.FinishClose, One;
      var c := heap[id];
      if c.state.Completed? {
        var result := c.state.result;
        FinishClose(id, result);
        assert closes + One(Opened(c.kind, result))
          == old(closes) + (One(Spec.FinishClose(c, result)) + One(Opened(c.kind, result)));
        closes := closes + One(Opened(c.kind, result));
        owner := owner - Settled(c, result);
        UpdateTwice(old(heap), id, c.(fd := None),
          c.(state := Terminated, handle := false, dropping := false, fd := None));
        heap := heap[id := heap[id].(state := Terminated, handle := false, dropping := false)];
      } else {
        heap := heap[id := c.(handle := false, dropping := false)];
      }
    }
  }

  lemma KeepsCount(s: System, id: Id)
    requires id in s.heap
    ensures id in Abandon(s, id).heap && Abandon(s, id).heap[id].strong == s.heap[id].strong
    ensures s.heap[id].state.Completed? ==>
      id in HandOver(s, id).heap && HandOver(s, id).heap[id].strong == s.heap[id].strong
  {
    hide Settled, Opened, FinishClose, One;
  }

  // A living future keeps its request.
  ghost predicate Stable(before: map<Id, Cell>, after: map<Id, Cell>) {
    forall id :: id in before && before[id].handle ==>
      id in after && after[id].handle && after[id].kind == before[id].kind && after[id].dropping == before[id].dropping
  }

  lemma StableSelf(h: map<Id, Cell>)
    ensures Stable(h, h)
  {
  }

  lemma StableTrans(a: map<Id, Cell>, b: map<Id, Cell>, c: map<Id, Cell>)
    requires Stable(a, b) && Stable(b, c)
    ensures Stable(a, c)
  {
  }

  lemma StableAt(a: map<Id, Cell>, b: map<Id, Cell>, id: Id)
    requires Stable(a, b) && id in a && a[id].handle
    ensures id in b && b[id].handle && b[id].kind == a[id].kind && b[id].dropping == a[id].dropping
  {
  }

  lemma AnswerFrame(s: System, iopoll: bool, entry: Entry, result: Res)
    requires entry.Op? ==> entry.id in s.heap
    ensures var t := Answer(s, iopoll, entry, result);
      t.pool == s.pool && t.handed == s.handed && t.back == s.back && Stable(s.heap, t.heap)
  {
  }

  lemma EnterKeepsHeap(s: System, iopoll: bool, n: nat)
    requires n <= |RingOf(s, iopoll).sq|
    ensures Enter(s, iopoll, n) == s.(ring := Enter(s, iopoll, n).ring, ringPoll := Enter(s, iopoll, n).ringPoll)
  {
  }

  lemma ReapedNone(s: System, iopoll: bool)
    requires Inv(s)
    ensures Reaped(s, iopoll, 0) == s
  {
    hide Inv;
  }

  lemma ReapedNext(s: System, iopoll: bool, k: nat)
    requires Inv(s) && k < |RingOf(s, iopoll).cq|
    ensures var u := Reaped(s, iopoll, k);
      var r := RingOf(u, iopoll);
      && r.cq != []
      && (r.cq[0].entry.Op? ==>
            r.cq[0].entry.id in u.heap && u.heap[r.cq[0].entry.id].state.Submitted?
                && u.heap[r.cq[0].entry.id].strong > 0)
      && Reaped(s, iopoll, k + 1) == ReapOne(u, iopoll)
      && WithRing(u, iopoll, r.(cq := r.cq[1..])).heap == u.heap
  {
    hide Holds, ReapOne;
    ReapOneHolds(Reaped(s, iopoll, k), iopoll, if iopoll then 0 else k, if iopoll then k else 0);
  }

  lemma ReapIsReaped(s: System, iopoll: bool)
    requires Inv(s)
    ensures var n := |RingOf(s, iopoll).cq|;
      var r := RingOf(Reaped(s, iopoll, n), iopoll);
      r.inFlight >= n && Reap(s, iopoll) == WithRing(Reaped(s, iopoll, n), iopoll, r.(inFlight := r.inFlight - n))
  {
    hide Holds, Reaped;
    CountEnough(Reaped(s, iopoll, |RingOf(s, iopoll).cq|), iopoll, |RingOf(s, iopoll).cq|);
  }

  lemma {:induction false} ReapedIsStable(s: System, iopoll: bool, k: nat)
    requires Inv(s) && k <= |RingOf(s, iopoll).cq|
    ensures Stable(s.heap, Reaped(s, iopoll, k).heap)
  {
    hide Holds, Stable, ReapOne;
    if k == 0 {
      StableSelf(s.heap);
    } else {
      var u := Reaped(s, iopoll, k - 1);
      ReapedIsStable(s, iopoll, k - 1);
      ReapOneHolds(u, iopoll, if iopoll then 0 else k - 1, if iopoll then k - 1 else 0);
      ReapOneIsStable(u, iopoll, if iopoll then 0 else k - 1, if iopoll then k - 1 else 0);
      StableTrans(s.heap, u.heap, ReapOne(u, iopoll).heap);
    }
  }

  lemma ReapOneIsStable(s: System, iopoll: bool, n: nat, m: nat)
    requires Holds(s, None, n, m) && RingOf(s, iopoll).cq != []
    requires var e := RingOf(s, iopoll).cq[0].entry;
      e.Op? ==> e.id in s.heap && s.heap[e.id].state.Submitted? && s.heap[e.id].strong > 0
    ensures Stable(s.heap, ReapOne(s, iopoll).heap)
  {
    hide Cells, Tracked, Descriptors, CounterExact, LifeCycle, ReturnCompletion, Stable;
    var r := RingOf(s, iopoll);
    StableSelf(s.heap);
    if r.cq[0].entry.Op? {
      var id := r.cq[0].entry.id;
      CellFacts(s, None, n, m, id);
      var c := s.heap[id];
      var result := if r.cq[0].result == Canceled && !c.state.canceled then TimedOut else r.cq[0].result;
      var t := WithRing(s, iopoll, r.(cq := r.cq[1..])).(heap := s.heap[id := c.(state := Completed(result))]);
      StableUpdate(s.heap, id, c.(state := Completed(result)));
      ReturnIsStable(t, id);
      StableTrans(s.heap, t.heap, ReturnCompletion(t, id).heap);
    }
  }

  lemma StableUpdate(h: map<Id, Cell>, id: Id, c: Cell)
    requires id in h && c.handle == h[id].handle && c.kind == h[id].kind && c.dropping == h[id].dropping
    ensures Stable(h, h[id := c])
  {
  }

  lemma ReturnIsStable(s: System, id: Id)
    requires id in s.heap && s.heap[id].strong > 0 && (s.heap[id].strong == 1 ==> !s.heap[id].handle)
    ensures Stable(s.heap, ReturnCompletion(s, id).heap)
  {
  }

  lemma ReapIsStable(s: System, iopoll: bool)
    requires Inv(s)
    ensures Stable(s.heap, Reap(s, iopoll).heap)
  {
    hide Holds, Stable, Reaped;
    ReapedIsStable(s, iopoll, |RingOf(s, iopoll).cq|);
  }

  lemma NotIdle(s: System, id: Id)
    requires Inv(s) && id in s.heap && s.heap[id].dropping
    ensures s.heap[id].state.Submitted? || s.heap[id].state.Completed?
  {
    hide Counted;
    CellFacts(s, None, 0, 0, id);
  }

  lemma FinishDropFacts(s: System, id: Id)
    requires Inv(s) && id in s.heap && s.heap[id].dropping && s.heap[id].handle && !MustWait(s.heap[id])
    ensures s.heap[id].strong > 0 && Inv(FinishDrop(s, id))
    ensures var t := FinishDrop(s, id);
      && t.ring == s.ring && t.ringPoll == s.ringPoll && t.known == s.known
      && (id in t.heap ==> !t.heap[id].handle && (s.heap[id].kind != Plain(true) ==> !t.heap[id].state.Submitted?))
      && (s.heap[id].kind.Close? ==> t.closes[s.heap[id].kind.given] == 1)
  {
    hide Holds, Counted, Inv, Settled, One;
    FinishDropHolds(s, id);
    Runs.HasReference(s, id);
    NotIdle(s, id);
    if s.heap[id].kind.Close? {
      Runs.CloseCloses(s, id);
    }
  }

  lemma UpdateTwice(m: map<Id, Cell>, id: Id, a: Cell, b: Cell)
    ensures m[id := a][id := b] == m[id := b]
  {
  }
}
