// What a request submits in its life.
module CompletionSubmissions {
  import opened Bytes
  import opened CompletionSpec
  import opened CompletionInvariant
  import opened CompletionRuns

  // The timeout stands directly behind the operation.
  ghost predicate LinkedAt(recent: seq<Entry>, id: Id, i: nat) {
    i + 1 < |recent| && recent[i] == Op(id) && recent[i + 1] == Timeout(id)
  }

  ghost predicate Linked(recent: seq<Entry>, id: Id) {
    exists i :: LinkedAt(recent, id, i)
  }

  // Of the submissions since it was created, those of the request `id`: its operation, if it was
  // polled; a timeout linked to that, if it was created with one; and a request to cancel it, if
  // somebody canceled it after that.
  ghost predicate Recorded(c: Cell, id: Id, recent: seq<Entry>) {
    && multiset(recent)[Op(id)] == B(c.submitted)
    && multiset(recent)[Timeout(id)] == B(c.submitted && c.timed)
    && multiset(recent)[CancelOf(id)] == B(c.submitted && c.requested)
    && (c.submitted && c.timed ==> Linked(recent, id))
  }

  predicate StateFits(c: Cell) {
    && (c.state.Idle? ==> !c.submitted && c.timed == c.state.timespec)
    && (c.state.Submitted? ==> c.submitted)
  }

  function Submissions(s: System, iopoll: bool): seq<Entry> {
    Pushed(RingOf(s, iopoll))
  }

  ghost predicate CellRecorded(s: System, id: Id)
    requires id in s.heap
  {
    var c := s.heap[id];
    && StateFits(c) && c.since <= |Submissions(s, c.iopoll)|
    && Recorded(c, id, Submissions(s, c.iopoll)[c.since..])
  }

  ghost predicate AllRecorded(s: System) {
    forall id :: id in s.heap ==> CellRecorded(s, id)
  }

  // Steps that submit nothing.

  predicate SameRecord(a: Cell, b: Cell) {
    && b.iopoll == a.iopoll && b.timed == a.timed && b.submitted == a.submitted && b.since == a.since
    && (a.submitted ==> b.requested == a.requested)
    && (b.state.Idle? ==> a.state == b.state) && (b.state.Submitted? ==> a.state.Submitted?)
  }

  ghost predicate Quiet(s: System, t: System) {
    && Submissions(t, false) == Submissions(s, false) && Submissions(t, true) == Submissions(s, true)
    && forall x :: x in t.heap ==> x in s.heap && SameRecord(s.heap[x], t.heap[x])
  }

  lemma QuietHolds(s: System, t: System)
    requires AllRecorded(s) && Quiet(s, t)
    ensures AllRecorded(t)
  {
    hide Submissions, Linked;
    forall id | id in t.heap
      ensures CellRecorded(t, id)
    {
      assert CellRecorded(s, id);
    }
  }

  lemma QuietTrans(s: System, t: System, u: System)
    requires Quiet(s, t) && Quiet(t, u)
    ensures Quiet(s, u)
  {
    hide Submissions;
  }

  lemma QuietReturn(s: System, id: Id)
    requires id in s.heap && s.heap[id].strong > 0
    ensures Quiet(s, ReturnCompletion(s, id)) && Quiet(s, Release(s, id))
  {
  }

  lemma QuietHandOver(s: System, id: Id)
    requires id in s.heap && s.heap[id].state.Completed? && s.heap[id].strong > 0
    ensures Quiet(s, PollReady(s, id))
  {
    hide ReturnCompletion, Settled;
    assert Quiet(s, HandOver(s, id));
    QuietReturn(HandOver(s, id), id);
    QuietTrans(s, HandOver(s, id), PollReady(s, id));
  }

  lemma QuietDrop(s: System, id: Id)
    requires id in s.heap && s.heap[id].strong > 0
    ensures Quiet(s, FinishDrop(s, id))
  {
    hide Release, Settled;
    assert Quiet(s, Abandon(s, id));
    QuietReturn(Abandon(s, id), id);
    QuietTrans(s, Abandon(s, id), FinishDrop(s, id));
  }

  lemma QuietScope(s: System, id: Id)
    requires id in s.heap && s.heap[id].scopes > 0 && s.heap[id].strong > 0
    ensures Quiet(s, LeaveScope(s, id))
  {
    hide ReturnCompletion;
    var c := s.heap[id];
    var u := s.(heap := s.heap[id := c.(scopes := c.scopes - 1)]);
    assert Quiet(s, u);
    QuietReturn(u, id);
    QuietTrans(s, u, LeaveScope(s, id));
  }

  // What the kernel accepts, it accepts in the order of submission.
  lemma QuietEnter(s: System, iopoll: bool, n: nat)
    requires n <= |RingOf(s, iopoll).sq|
    ensures Quiet(s, Enter(s, iopoll, n))
  {
    var r := RingOf(s, iopoll);
    assert r.taken + r.sq[..n] + r.sq[n..] == r.taken + r.sq;
  }

  lemma QuietAnswer(s: System, iopoll: bool, entry: Entry, result: Res)
    requires entry.Op? ==> entry.id in s.heap
    ensures Quiet(s, Answer(s, iopoll, entry, result))
  {
  }

  lemma QuietReapOne(s: System, iopoll: bool)
    requires var r := RingOf(s, iopoll);
      r.cq != [] && (r.cq[0].entry.Op? ==>
        r.cq[0].entry.id in s.heap && s.heap[r.cq[0].entry.id].state.Submitted? && s.heap[r.cq[0].entry.id].strong > 0)
    ensures Quiet(s, ReapOne(s, iopoll))
  {
    hide ReturnCompletion;
    var r := RingOf(s, iopoll);
    var cqe := r.cq[0];
    var t := WithRing(s, iopoll, r.(cq := r.cq[1..]));
    assert Quiet(s, t);
    if cqe.entry.Op? {
      var c := s.heap[cqe.entry.id];
      var result := if cqe.result == Canceled && !c.state.canceled then TimedOut else cqe.result;
      var u := t.(heap := s.heap[cqe.entry.id := c.(state := Completed(result))]);
      assert Quiet(s, u);
      QuietReturn(u, cqe.entry.id);
      QuietTrans(s, u, ReapOne(s, iopoll));
    }
  }

  lemma {:induction false} QuietReaped(s: System, iopoll: bool, k: nat)
    requires Inv(s) && k <= |RingOf(s, iopoll).cq|
    ensures Quiet(s, Reaped(s, iopoll, k))
  {
    hide Holds, ReapOne, Quiet;
    if k == 0 {
      QuietSelf(s);
    } else {
      var u := Reaped(s, iopoll, k - 1);
      QuietReaped(s, iopoll, k - 1);
      ReapOneHolds(u, iopoll, if iopoll then 0 else k - 1, if iopoll then k - 1 else 0);
      QuietReapOne(u, iopoll);
      QuietTrans(s, u, ReapOne(u, iopoll));
    }
  }

  lemma QuietSelf(s: System)
    ensures Quiet(s, s)
  {
  }

  lemma QuietReap(s: System, iopoll: bool)
    requires Inv(s)
    ensures Quiet(s, Reap(s, iopoll))
  {
    hide Holds, Reaped;
    var n := |RingOf(s, iopoll).cq|;
    QuietReaped(s, iopoll, n);
    QuietTrans(s, Reaped(s, iopoll, n), Reap(s, iopoll));
  }

  // Steps that submit for the request `id`.

  lemma Recent(p: seq<Entry>, entries: seq<Entry>, since: nat)
    requires since <= |p|
    ensures (p + entries)[since..] == p[since..] + entries
  {
  }

  // The others are not concerned.
  lemma OthersRecorded(c: Cell, x: Id, recent: seq<Entry>, entries: seq<Entry>)
    requires Recorded(c, x, recent) && forall i :: 0 <= i < |entries| ==> entries[i].id != x
    ensures Recorded(c, x, recent + entries)
  {
    forall e: Entry | e.id == x
      ensures multiset(entries)[e] == 0
    {
      assert e !in entries;
    }
    LinkStays(recent, x, entries);
  }

  lemma LinkStays(recent: seq<Entry>, x: Id, entries: seq<Entry>)
    ensures Linked(recent, x) ==> Linked(recent + entries, x)
  {
    if i: nat :| LinkedAt(recent, x, i) {
      assert LinkedAt(recent + entries, x, i);
    }
  }

  lemma SubmitRecorded(c: Cell, id: Id, recent: seq<Entry>, d: Cell)
    requires Recorded(c, id, recent) && !c.submitted && !c.requested
    requires d.submitted && d.timed == c.timed && d.requested == c.requested
    ensures Recorded(d, id, recent + if c.timed then [Op(id), Timeout(id)] else [Op(id)])
  {
    if c.timed {
      var all := recent + [Op(id), Timeout(id)];
      assert multiset([Op(id), Timeout(id)]) == multiset{Op(id), Timeout(id)};
      assert LinkedAt(all, id, |recent|);
    } else {
      assert multiset([Op(id)]) == multiset{Op(id)};
    }
  }

  lemma CancelRecorded(c: Cell, id: Id, recent: seq<Entry>, d: Cell)
    requires Recorded(c, id, recent) && c.submitted && !c.requested
    requires d.submitted && d.timed == c.timed && d.requested
    ensures Recorded(d, id, recent + [CancelOf(id)])
  {
    assert multiset([CancelOf(id)]) == multiset{CancelOf(id)};
    LinkStays(recent, id, [CancelOf(id)]);
  }

  // The request `id` becomes `d`, and `entries` are submitted for it.
  lemma PushHolds(s: System, t: System, id: Id, d: Cell, entries: seq<Entry>)
    requires AllRecorded(s) && id in s.heap && t.heap == s.heap[id := d]
    requires Submissions(t, d.iopoll) == Submissions(s, d.iopoll) + entries
    requires Submissions(t, !d.iopoll) == Submissions(s, !d.iopoll)
    requires forall i :: 0 <= i < |entries| ==> entries[i].id == id
    requires StateFits(d) && d.iopoll == s.heap[id].iopoll && d.since == s.heap[id].since
    requires d.since <= |Submissions(s, d.iopoll)| ==>
      Recorded(d, id, Submissions(s, d.iopoll)[d.since..] + entries)
    ensures AllRecorded(t)
  {
    hide Submissions, Recorded, StateFits;
    forall x | x in t.heap
      ensures CellRecorded(t, x)
    {
      assert CellRecorded(s, x);
      var c := s.heap[x];
      var p := Submissions(s, c.iopoll);
      if c.iopoll == d.iopoll {
        Recent(p, entries, c.since);
        if x != id {
          OthersRecorded(c, x, p[c.since..], entries);
        }
      }
    }
  }

  lemma PushedEntries(s: System, iopoll: bool, entries: seq<Entry>)
    ensures var t := Push(s, iopoll, entries);
      && Submissions(t, iopoll) == Submissions(s, iopoll) + entries
      && Submissions(t, !iopoll) == Submissions(s, !iopoll) && t.heap == s.heap
  {
    var r := RingOf(s, iopoll);
    assert r.taken + (r.sq + entries) == r.taken + r.sq + entries;
  }

  lemma SubmitRecords(s: System, id: Id)
    requires Inv(s) && AllRecorded(s) && id in s.heap && s.heap[id].state.Idle?
    ensures AllRecorded(Submit(s, id))
  {
    hide Holds, Recorded, Submissions, Push;
    CellFacts(s, None, 0, 0, id);
    var c := s.heap[id];
    assert CellRecorded(s, id);
    var d := c.(state := Submitted(false), strong := c.strong + 1, submitted := true);
    var entries := if c.state.timespec then [Op(id), Timeout(id)] else [Op(id)];
    PushedEntries(s.(heap := s.heap[id := d]), c.iopoll, entries);
    SameSubmissions(s, s.(heap := s.heap[id := d]));
    SubmitRecorded(c, id, Submissions(s, c.iopoll)[c.since..], d);
    PushHolds(s, Submit(s, id), id, d, entries);
  }

  lemma SameSubmissions(s: System, t: System)
    requires t.ring == s.ring && t.ringPoll == s.ringPoll
    ensures forall iopoll :: Submissions(t, iopoll) == Submissions(s, iopoll)
  {
  }

  lemma CancelRecords(s: System, id: Id)
    requires Inv(s) && AllRecorded(s) && id in s.heap
    ensures AllRecorded(Cancel(s, id))
  {
    hide Holds, Recorded, Submissions, Push;
    CellFacts(s, None, 0, 0, id);
    var c := s.heap[id];
    assert CellRecorded(s, id);
    if c.state == Submitted(false) {
      var d := c.(state := Submitted(true), requested := true);
      PushedEntries(s.(heap := s.heap[id := d]), c.iopoll, [CancelOf(id)]);
      SameSubmissions(s, s.(heap := s.heap[id := d]));
      CancelRecorded(c, id, Submissions(s, c.iopoll)[c.since..], d);
      PushHolds(s, Cancel(s, id), id, d, [CancelOf(id)]);
    } else {
      SameSubmissions(s, Cancel(s, id));
      QuietHolds(s, Cancel(s, id));
    }
  }

  lemma CreateRecords(s: System, id: Id, kind: Kind, iopoll: bool, timespec: bool, inScope: bool)
    requires AllRecorded(s) && CanCreate(s, id, kind)
    ensures AllRecorded(Create(s, id, kind, iopoll, timespec, inScope))
  {
    hide Submissions, Pushed;
    var t := Create(s, id, kind, iopoll, timespec, inScope);
    SameSubmissions(s, t);
    NewSince(s, iopoll);
    forall x | x in t.heap
      ensures CellRecorded(t, x)
    {
      if x != id {
        assert CellRecorded(s, x);
      } else {
        assert Submissions(t, iopoll)[t.heap[id].since..] == [];
      }
    }
  }

  lemma NewSince(s: System, iopoll: bool)
    ensures |Pushed(RingOf(s, iopoll))| == |Submissions(s, iopoll)|
  {
  }

  lemma StepRecorded(s: System, a: Action)
    requires Inv(s) && Enabled(s, a) && AllRecorded(s)
    ensures AllRecorded(Next(s, a))
  {
    hide Holds, AllRecorded, Quiet, Create, PollReady, Submit, Cancel, FinishDrop, LeaveScope, Enter, Answer, Reap;
    match a {
      case New(id, kind, iopoll, timespec, inScope) => CreateRecords(s, id, kind, iopoll, timespec, inScope);
      case Poll(id) => PollRecorded(s, id);
      case CancelRequest(id) => CancelRecords(s, id);
      case BeginDrop(id) => DropRecorded(s, id);
      case EndDrop(id) => HasReference(s, id); QuietDrop(s, id);
      case ScopeReturns(id) => HasReference(s, id); QuietScope(s, id);
      case CallerDrops(fd) => QuietCaller(s, fd);
      case EnterKernel(iopoll, n) => QuietEnter(s, iopoll, n);
      case KernelAnswers(iopoll, entry, result) =>
        IsAllocated(s, iopoll, entry, result);
        QuietAnswer(s, iopoll, entry, result);
      case ProcessCompletions(iopoll) => QuietReap(s, iopoll);
    }
    if Quiet(s, Next(s, a)) {
      QuietHolds(s, Next(s, a));
    }
  }

  lemma PollRecorded(s: System, id: Id)
    requires Inv(s) && Enabled(s, Poll(id)) && AllRecorded(s)
    ensures AllRecorded(PollFuture(s, id))
  {
    hide Holds, AllRecorded, Quiet, PollReady, Submit;
    HasReference(s, id);
    if s.heap[id].state.Idle? {
      SubmitRecords(s, id);
    } else if s.heap[id].state.Completed? {
      QuietHandOver(s, id);
      QuietHolds(s, PollReady(s, id));
    }
  }

  lemma DropRecorded(s: System, id: Id)
    requires Inv(s) && AllRecorded(s) && id in s.heap
    ensures AllRecorded(StartDrop(s, id))
  {
    hide Holds, AllRecorded, Cancel;
    CancelRecords(s, id);
    CancelFrame(s, id);
    QuietHolds(Cancel(s, id), StartDrop(s, id));
  }

  lemma QuietCaller(s: System, fd: Fd)
    ensures Quiet(s, CallerCloses(s, fd))
  {
  }

  lemma {:induction false} RunRecorded(actions: seq<Action>)
    ensures AllRecorded(Run(actions))
    decreases |actions|
  {
    hide Holds, AllRecorded, Next, Enabled;
    if actions == [] {
      NothingRecorded();
    } else {
      var k := |actions| - 1;
      RunRecorded(actions[..k]);
      if Enabled(Run(actions[..k]), actions[k]) {
        StepRecorded(Run(actions[..k]), actions[k]);
      }
    }
  }

  lemma NothingRecorded()
    ensures AllRecorded(INITIAL)
  {
  }

  // Over every run a request submits, from its creation on and in this order: its operation, once it
  // is polled; directly behind it one timeout, if it was created with one; and one request to cancel
  // it, if it is canceled after that. The kernel accepts them in the order of submission.
  lemma SubmissionsAreExact(actions: seq<Action>, id: Id)
    requires id in Run(actions).heap
    ensures var s := Run(actions);
      var c := s.heap[id];
      var r := RingOf(s, c.iopoll);
      && c.since <= |r.taken + r.sq|
      && var recent := (r.taken + r.sq)[c.since..];
         && multiset(recent)[Op(id)] == B(c.submitted)
         && multiset(recent)[Timeout(id)] == B(c.submitted && c.timed)
         && multiset(recent)[CancelOf(id)] == B(c.submitted && c.requested)
         && (c.submitted && c.timed ==>
               exists i :: 0 <= i < |recent| - 1 && recent[i] == Op(id) && recent[i + 1] == Timeout(id))
    ensures var c := Run(actions).heap[id];
      (c.state.Idle? ==> !c.submitted && c.timed == c.state.timespec) && (c.state.Submitted? ==> c.submitted)
  {
    hide Run, Holds;
    RunRecorded(actions);
    var s := Run(actions);
    assert CellRecorded(s, id);
    var c := s.heap[id];
    var recent := Submissions(s, c.iopoll)[c.since..];
    if c.submitted && c.timed {
      var i: nat :| LinkedAt(recent, id, i);
      assert recent[i] == Op(id) && recent[i + 1] == Timeout(id);
    }
  }
}
