// What every step of the completion protocol keeps.
module CompletionInvariant {
  import opened Bytes
  import opened CompletionSpec

  function B(b: bool): nat {
    if b then 1 else 0
  }

  // The reference count is the number of holders: the future, the scopes, the kernel while the
  // request is submitted, and the pool; plus one that is being given back.
  ghost predicate Counted(c: Cell, pooled: bool, loose: bool) {
    && c.strong == B(c.handle) + c.scopes + B(c.state.Submitted?) + B(pooled) + B(loose)
    && c.strong > 0
    && (pooled ==> !c.handle && c.scopes == 0 && !c.state.Submitted? && !loose)
  }

  ghost predicate LifeCycle(c: Cell) {
    && (c.handle ==> c.state != Terminated)
    && (c.dropping ==> c.handle && !c.state.Idle? && c.state != Submitted(false))
    // Only a request that owns its buffers and carries no descriptor outlives its future.
    && (!c.handle ==> !c.state.Idle? && !MustWait(c) && (c.state.Completed? ==> c.kind.Plain?))
    && c.fd == (if c.kind.Close? && c.handle then Some(c.kind.given) else None)
    && (c.state.Idle? ==> c.answer == None && !c.requested)
    && (c.state.Submitted? ==> c.state.canceled == c.requested)
    && (c.state.Completed? ==> c.state.result == Reported(c) && (c.answer == None ==> c.requested))
    // A close is reported as canceled exactly when the kernel did not close the descriptor.
    && (c.kind.Close? && c.answer == Some(Canceled) ==> c.state != Submitted(false))
    && (c.kind.Close? && c.state.Completed? ==> (c.state.result == Canceled <==> !ClosedByKernel(c)))
    && (c.kind.Open? && c.state.Completed? ==> Opened(c.kind, c.state.result) == Made(c))
  }

  // The result that a completed request reports. `CANCELED` is kept for requests that somebody
  // canceled, before or after they were submitted; otherwise it means that the timeout fired.
  function Reported(c: Cell): Res {
    if c.answer.None? || (c.answer.value == Canceled && c.requested) then Canceled
    else if c.answer.value == Canceled then TimedOut
    else c.answer.value
  }

  predicate ClosedByKernel(c: Cell) {
    c.kind.Close? && c.answer.Some? && c.answer.value != Canceled
  }

  // The descriptor that the kernel has made for a request.
  function Made(c: Cell): Option<Fd> {
    if c.answer.Some? then Opened(c.kind, c.answer.value) else None
  }

  ghost predicate Cells(heap: map<Id, Cell>, pool: seq<Id>, loose: Option<Id>) {
    && (forall id :: id in heap ==> Counted(heap[id], id in pool, loose == Some(id)) && LifeCycle(heap[id]))
    && (forall i :: 0 <= i < |pool| ==> pool[i] in heap)
    && (forall i, j :: 0 <= i < j < |pool| ==> pool[i] != pool[j])
    && |pool| <= MAX_COMPLETION_POOL_ENTRIES
  }

  function Entries(cq: seq<Cqe>): seq<Entry> {
    seq(|cq|, i requires 0 <= i < |cq| => cq[i].entry)
  }

  // The submissions of a ring that have not been reaped.
  function Unreaped(r: Ring): multiset<Entry> {
    multiset(r.sq) + r.kernel + multiset(Entries(r.cq))
  }

  ghost predicate InFlight(heap: map<Id, Cell>, id: Id, iopoll: bool) {
    id in heap && heap[id].state.Submitted? && heap[id].iopoll == iopoll
  }

  // A request is in its ring exactly once while it is submitted, and not otherwise.
  ghost predicate Tracked(heap: map<Id, Cell>, iopoll: bool, r: Ring) {
    && (forall id: Id :: Unreaped(r)[Op(id)] == B(InFlight(heap, id, iopoll)))
    && (forall id: Id :: Op(id) in multiset(r.sq) + r.kernel ==> id in heap && heap[id].answer == None)
    && (forall i :: 0 <= i < |r.cq| && r.cq[i].entry.Op? ==>
          r.cq[i].entry.id in heap && heap[r.cq[i].entry.id].answer == Some(r.cq[i].result))
  }

  // The statistics count the unreaped submissions and the `done` ones reaped since.
  predicate CounterExact(r: Ring, done: nat) {
    r.inFlight == |Unreaped(r)| + done
  }

  // `owner` is the responsibility for descriptors.
  ghost predicate Owned(heap: map<Id, Cell>, known: set<Fd>, owner: map<Fd, Id>) {
    && (forall fd :: fd in owner ==> fd in known && owner[fd] in heap && Responsible(heap[owner[fd]], fd))
    && (forall id, fd :: id in heap && Responsible(heap[id], fd) ==> fd in owner && owner[fd] == id)
  }

  // A descriptor that no request is responsible for is in its caller's hands or was closed, once.
  ghost predicate Balanced(s: System) {
    forall fd :: Fate(s, fd)
  }

  predicate Fate(s: System, fd: Fd) {
    if fd !in s.known then s.closes[fd] == 0 && s.handed[fd] == 0 && s.back[fd] == 0
    else if fd in s.owner then
      && s.closes[fd] == ClosesOf(s.heap, s.owner[fd])
      && s.handed[fd] == s.back[fd] <= HandedAtMost(s.heap, s.owner[fd])
    else s.closes[fd] + s.handed[fd] == 1 + s.back[fd] && s.back[fd] <= s.handed[fd] <= 1
  }

  ghost predicate Descriptors(s: System) {
    Owned(s.heap, s.known, s.owner) && Balanced(s)
  }

  // How often the descriptor of a request has been closed while the request is responsible.
  function ClosesOf(heap: map<Id, Cell>, id: Id): nat {
    B(id in heap && ClosedByKernel(heap[id]))
  }

  // How often a descriptor in the care of a request can have been handed out: one that the request
  // made, never; one that was given to it, once.
  function HandedAtMost(heap: map<Id, Cell>, id: Id): nat {
    B(id in heap && !heap[id].kind.Open?)
  }

  predicate Responsible(c: Cell, fd: Fd) {
    c.handle && (c.kind == Close(fd) || Made(c) == Some(fd))
  }

  ghost predicate Holds(s: System, loose: Option<Id>, done: nat, donePoll: nat) {
    && Cells(s.heap, s.pool, loose)
    && Tracked(s.heap, false, s.ring) && Tracked(s.heap, true, s.ringPoll)
    && CounterExact(s.ring, done) && CounterExact(s.ringPoll, donePoll)
    && Descriptors(s)
  }

  ghost predicate Inv(s: System) {
    Holds(s, None, 0, 0)
  }

  // What the multiset of unreaped submissions says about a request that is not in it.
  lemma Absent(r: Ring, id: Id)
    requires Unreaped(r)[Op(id)] == 0
    ensures Op(id) !in multiset(r.sq) + r.kernel
    ensures forall i :: 0 <= i < |r.cq| ==> r.cq[i].entry != Op(id)
  {
    assert forall i :: 0 <= i < |r.cq| ==> Entries(r.cq)[i] == r.cq[i].entry;
  }

  lemma PushAdds(r: Ring, entries: seq<Entry>)
    ensures var q := r.(sq := r.sq + entries, inFlight := r.inFlight + |entries|);
      Unreaped(q) == Unreaped(r) + multiset(entries)
  {
  }

  // Updates of one completion.

  lemma CellsAfter(heap: map<Id, Cell>, pool: seq<Id>, loose: Option<Id>, id: Id, c: Cell, after: Option<Id>)
    requires Cells(heap, pool, loose) && id in heap
    requires loose in {None, Some(id)} && after in {None, Some(id)}
    requires Counted(c, id in pool, after == Some(id)) && LifeCycle(c)
    ensures Cells(heap[id := c], pool, after)
  {
    hide Counted, LifeCycle;
  }

  // A change that keeps a request's place in its ring.
  lemma TrackedAfter(heap: map<Id, Cell>, iopoll: bool, r: Ring, id: Id, c: Cell)
    requires Tracked(heap, iopoll, r) && id in heap
    requires c.state.Submitted? == heap[id].state.Submitted? && c.iopoll == heap[id].iopoll
        && c.answer == heap[id].answer
    ensures Tracked(heap[id := c], iopoll, r)
  {
    hide Unreaped;
    assert forall x :: InFlight(heap[id := c], x, iopoll) == InFlight(heap, x, iopoll);
  }

  // A change that keeps a request's responsibility.
  lemma DescriptorsAfter(s: System, id: Id, c: Cell)
    requires Descriptors(s) && id in s.heap
    requires c.kind == s.heap[id].kind && c.handle == s.heap[id].handle && c.answer == s.heap[id].answer
    ensures Descriptors(s.(heap := s.heap[id := c]))
  {
    assert forall fd :: Responsible(c, fd) == Responsible(s.heap[id], fd);
    assert forall x :: ClosesOf(s.heap[id := c], x) == ClosesOf(s.heap, x);
    assert forall x :: HandedAtMost(s.heap[id := c], x) == HandedAtMost(s.heap, x);
    hide Responsible, ClosesOf, HandedAtMost;
    SameFates(s, s.(heap := s.heap[id := c]));
  }

  lemma SameFates(s: System, t: System)
    requires Balanced(s)
    requires t.closes == s.closes && t.handed == s.handed && t.back == s.back
    requires t.known == s.known && t.owner == s.owner
    requires forall fd :: fd in s.owner ==> ClosesOf(t.heap, s.owner[fd]) == ClosesOf(s.heap, s.owner[fd])
    requires forall fd :: fd in s.owner ==> HandedAtMost(t.heap, s.owner[fd]) == HandedAtMost(s.heap, s.owner[fd])
    ensures Balanced(t)
  {
    hide ClosesOf, HandedAtMost;
    forall fd
      ensures Fate(t, fd)
    {
      assert Fate(s, fd);
    }
  }

  // A change of one request's responsibility, and of `owner` with it.
  lemma OwnedAfter(heap: map<Id, Cell>, known: set<Fd>, owner: map<Fd, Id>, id: Id, c: Cell, known': set<Fd>,
      owner': map<Fd, Id>)
    requires Owned(heap, known, owner) && known <= known' && owner'.Keys <= known'
    requires forall fd :: fd in owner' <==> Responsible(c, fd) || (fd in owner && owner[fd] != id)
    requires forall fd :: fd in owner' ==> owner'[fd] == if Responsible(c, fd) then id else owner[fd]
    requires forall fd :: fd in owner && Responsible(c, fd) ==> owner[fd] == id
    ensures Owned(heap[id := c], known', owner')
  {
    hide Responsible;
  }

  lemma KeepsHolds(s: System, loose: Option<Id>, n: nat, m: nat, id: Id, c: Cell, after: Option<Id>)
    requires Holds(s, loose, n, m) && id in s.heap
    requires loose in {None, Some(id)} && after in {None, Some(id)}
    requires Counted(c, id in s.pool, after == Some(id)) && LifeCycle(c)
    requires c.state.Submitted? == s.heap[id].state.Submitted? && c.iopoll == s.heap[id].iopoll
        && c.answer == s.heap[id].answer
    requires c.kind == s.heap[id].kind && c.handle == s.heap[id].handle
    ensures Holds(s.(heap := s.heap[id := c]), after, n, m)
  {
    hide Cells, Tracked, Descriptors, Counted, LifeCycle, CounterExact;
    CellsAfter(s.heap, s.pool, loose, id, c, after);
    TrackedAfter(s.heap, false, s.ring, id, c);
    TrackedAfter(s.heap, true, s.ringPoll, id, c);
    DescriptorsAfter(s, id, c);
  }

  // Giving back a reference.

  lemma ReleaseHolds(s: System, id: Id, n: nat, m: nat)
    requires Holds(s, Some(id), n, m) && id in s.heap && !s.heap[id].handle
    ensures s.heap[id].strong > 0 && Holds(Release(s, id), None, n, m)
  {
    hide Cells, Tracked, Descriptors, CounterExact;
    CellFacts(s, Some(id), n, m, id);
    var c := s.heap[id];
    if c.strong > 1 {
      KeepsHolds(s, Some(id), n, m, id, c.(strong := c.strong - 1), None);
    } else {
      FreeCells(s.heap, s.pool, id);
      FreeTracked(s.heap, false, s.ring, id);
      FreeTracked(s.heap, true, s.ringPoll, id);
      FreeDescriptors(s, id);
      assert s.closes + One(c.fd) == s.closes by { NoFd(c); }
    }
  }

  lemma NoFd(c: Cell)
    requires LifeCycle(c) && !c.handle
    ensures c.fd == None && One(c.fd) == multiset{}
  {
  }

  lemma CellFacts(s: System, loose: Option<Id>, n: nat, m: nat, id: Id)
    requires Holds(s, loose, n, m) && id in s.heap
    ensures Counted(s.heap[id], id in s.pool, loose == Some(id)) && LifeCycle(s.heap[id])
    ensures |s.pool| <= MAX_COMPLETION_POOL_ENTRIES
  {
  }

  lemma FreeCells(heap: map<Id, Cell>, pool: seq<Id>, id: Id)
    requires Cells(heap, pool, Some(id)) && id in heap && heap[id].strong == 1
    ensures Cells(heap - {id}, pool, None)
  {
    hide LifeCycle;
    assert id !in pool;
  }

  lemma FreeTracked(heap: map<Id, Cell>, iopoll: bool, r: Ring, id: Id)
    requires Tracked(heap, iopoll, r) && id in heap && !heap[id].state.Submitted?
    ensures Tracked(heap - {id}, iopoll, r)
  {
    hide Unreaped;
    assert forall x :: InFlight(heap - {id}, x, iopoll) == InFlight(heap, x, iopoll);
    Absent(r, id);
  }

  lemma FreeDescriptors(s: System, id: Id)
    requires Descriptors(s) && id in s.heap && !s.heap[id].handle
    ensures Descriptors(s.(heap := s.heap - {id}))
  {
    assert forall fd :: !Responsible(s.heap[id], fd);
    assert forall x :: x != id ==> ClosesOf(s.heap - {id}, x) == ClosesOf(s.heap, x);
    assert forall x :: x != id ==> HandedAtMost(s.heap - {id}, x) == HandedAtMost(s.heap, x);
    hide Responsible, ClosesOf, HandedAtMost;
    SameFates(s, s.(heap := s.heap - {id}));
  }

  lemma ReturnHolds(s: System, id: Id, n: nat, m: nat)
    requires Holds(s, Some(id), n, m) && id in s.heap
    requires s.heap[id].strong == 1 ==> !s.heap[id].handle
    ensures s.heap[id].strong > 0 && Holds(ReturnCompletion(s, id), None, n, m)
  {
    hide Cells, Tracked, Descriptors, CounterExact;
    CellFacts(s, Some(id), n, m, id);
    if |s.pool| < MAX_COMPLETION_POOL_ENTRIES && s.heap[id].strong == 1 {
      PoolCells(s.heap, s.pool, id);
      SameDescriptors(s, s.(pool := s.pool + [id]));
    } else if s.heap[id].strong == 1 {
      ReleaseHolds(s, id, n, m);
    } else {
      KeepsHolds(s, Some(id), n, m, id, s.heap[id].(strong := s.heap[id].strong - 1), None);
    }
  }

  lemma PoolCells(heap: map<Id, Cell>, pool: seq<Id>, id: Id)
    requires Cells(heap, pool, Some(id)) && id in heap && heap[id].strong == 1 && |pool| < MAX_COMPLETION_POOL_ENTRIES
    ensures Cells(heap, pool + [id], None)
  {
    hide LifeCycle;
    assert id !in pool;
  }

  lemma SameDescriptors(s: System, t: System)
    requires Descriptors(s)
    requires t.heap == s.heap && t.closes == s.closes && t.handed == s.handed && t.back == s.back && t.known == s.known
        && t.owner == s.owner
    ensures Descriptors(t)
  {
    hide Responsible, ClosesOf, HandedAtMost;
    SameFates(s, t);
  }

  // The steps.

  // A descriptor can be given to a close if it comes from elsewhere, or if an open handed it out
  // and its caller still has it.
  ghost predicate CanCreate(s: System, id: Id, kind: Kind) {
    && (if s.pool != [] then id == s.pool[0] && id in s.heap else id !in s.heap)
    && (kind.Close? ==> kind.given !in s.known || InHands(s, kind.given))
  }

  // A descriptor that was handed to a caller, who still has it.
  predicate InHands(s: System, fd: Fd) {
    fd in s.known && fd !in s.owner && s.handed[fd] > s.back[fd]
  }

  lemma CreateHolds(s: System, id: Id, kind: Kind, iopoll: bool, timespec: bool, inScope: bool)
    requires Inv(s) && CanCreate(s, id, kind)
    ensures Inv(Create(s, id, kind, iopoll, timespec, inScope))
  {
    hide Cells, Tracked, Descriptors, CounterExact, Made, ClosedByKernel, MustWait;
    var t := Create(s, id, kind, iopoll, timespec, inScope);
    var c := t.heap[id];
    if s.pool != [] {
      CellFacts(s, None, 0, 0, id);
      NoFd(s.heap[id]);
    }
    CreateCells(s.heap, s.pool, id, c);
    CreateTracked(s.heap, false, s.ring, id, c);
    CreateTracked(s.heap, true, s.ringPoll, id, c);
    CreateDescriptors(s, t, id, c);
  }

  lemma CreateCells(heap: map<Id, Cell>, pool: seq<Id>, id: Id, c: Cell)
    requires Cells(heap, pool, None) && (if pool != [] then id == pool[0] else id !in heap)
    requires Counted(c, false, false) && LifeCycle(c)
    ensures Cells(heap[id := c], if pool != [] then pool[1..] else [], None)
  {
    hide Counted, LifeCycle;
    var rest := if pool != [] then pool[1..] else [];
    assert forall i :: 0 <= i < |rest| ==> rest[i] == pool[i + 1];
    assert id !in rest;
    forall x | x in heap && x != id
      ensures x in rest <==> x in pool
    {
      if x in pool {
        var i :| 0 <= i < |pool| && pool[i] == x;
        assert rest[i - 1] == x;
      }
    }
  }

  lemma CreateTracked(heap: map<Id, Cell>, iopoll: bool, r: Ring, id: Id, c: Cell)
    requires Tracked(heap, iopoll, r) && (id in heap ==> !heap[id].state.Submitted?) && !c.state.Submitted?
    ensures Tracked(heap[id := c], iopoll, r)
  {
    hide Unreaped;
    assert forall x :: InFlight(heap[id := c], x, iopoll) == InFlight(heap, x, iopoll);
    Absent(r, id);
  }

  lemma CreateDescriptors(s: System, t: System, id: Id, c: Cell)
    requires Descriptors(s) && (id in s.heap ==> !s.heap[id].handle)
    requires c.handle && c.answer == None
    requires c.kind.Close? ==> c.kind.given !in s.known || InHands(s, c.kind.given)
    requires t.heap == s.heap[id := c] && t.closes == s.closes && t.handed == s.handed
    requires t.back == s.back + One(if c.kind.Close? && c.kind.given in s.known then Some(c.kind.given) else None)
    requires t.known == if c.kind.Close? then s.known + {c.kind.given} else s.known
    requires t.owner == if c.kind.Close? then s.owner[c.kind.given := id] else s.owner
    ensures Descriptors(t)
  {
    assert forall fd :: Responsible(c, fd) <==> c.kind == Close(fd);
    assert id in s.heap ==> forall fd :: !Responsible(s.heap[id], fd);
    OwnedAfter(s.heap, s.known, s.owner, id, c, t.known, t.owner);
    CreateBalanced(s, t, id, c);
  }

  lemma CreateBalanced(s: System, t: System, id: Id, c: Cell)
    requires Balanced(s) && Owned(s.heap, s.known, s.owner) && (id in s.heap ==> !s.heap[id].handle)
    requires c.handle && c.answer == None
    requires c.kind.Close? ==> c.kind.given !in s.known || InHands(s, c.kind.given)
    requires t.heap == s.heap[id := c] && t.closes == s.closes && t.handed == s.handed
    requires t.back == s.back + One(if c.kind.Close? && c.kind.given in s.known then Some(c.kind.given) else None)
    requires t.known == if c.kind.Close? then s.known + {c.kind.given} else s.known
    requires t.owner == if c.kind.Close? then s.owner[c.kind.given := id] else s.owner
    ensures Balanced(t)
  {
    assert ClosesOf(t.heap, id) == 0;
    assert id in s.heap ==> forall fd :: !Responsible(s.heap[id], fd);
    forall fd | fd in s.owner
      ensures s.owner[fd] != id && ClosesOf(t.heap, s.owner[fd]) == ClosesOf(s.heap, s.owner[fd])
      ensures HandedAtMost(t.heap, s.owner[fd]) == HandedAtMost(s.heap, s.owner[fd])
    {
      assert Responsible(s.heap[s.owner[fd]], fd);
    }
    assert c.kind.Close? ==> HandedAtMost(t.heap, id) == 1;
    hide Responsible, ClosesOf, HandedAtMost;
    forall fd
      ensures Fate(t, fd)
    {
      assert Fate(s, fd);
    }
  }

  lemma CallerClosesHolds(s: System, fd: Fd)
    requires Inv(s) && InHands(s, fd)
    ensures Inv(CallerCloses(s, fd))
  {
    hide Cells, Tracked, CounterExact, Responsible, ClosesOf, HandedAtMost;
    var t := CallerCloses(s, fd);
    forall x
      ensures Fate(t, x)
    {
      assert Fate(s, x);
    }
  }

  // Pushing entries for the request `id`.
  lemma PushTracked(heap: map<Id, Cell>, iopoll: bool, r: Ring, done: nat, entries: seq<Entry>)
    requires Tracked(heap, iopoll, r) && CounterExact(r, done)
    requires forall i :: 0 <= i < |entries| ==> !entries[i].Op?
    ensures var q := r.(sq := r.sq + entries, inFlight := r.inFlight + |entries|);
      Tracked(heap, iopoll, q) && CounterExact(q, done)
  {
    var q := r.(sq := r.sq + entries, inFlight := r.inFlight + |entries|);
    assert Unreaped(q) == Unreaped(r) + multiset(entries);
    assert forall id: Id :: Op(id) !in multiset(entries);
  }

  lemma CancelHolds(s: System, id: Id)
    requires Inv(s) && id in s.heap
    ensures Inv(Cancel(s, id)) && id in Cancel(s, id).heap
  {
    hide Cells, Tracked, Descriptors, CounterExact;
    CellFacts(s, None, 0, 0, id);
    var c := s.heap[id];
    match c.state {
      case Idle(_) => KeepsHolds(s, None, 0, 0, id, c.(state := Completed(Canceled), requested := true), None);
      case Submitted(false) =>
        var d := c.(state := Submitted(true), requested := true);
        var t := s.(heap := s.heap[id := d]);
        KeepsHolds(s, None, 0, 0, id, d, None);
        PushTracked(t.heap, c.iopoll, RingOf(t, c.iopoll), 0, [CancelOf(id)]);
        SameDescriptors(t, Cancel(s, id));
      case _ =>
    }
  }

  lemma SubmitHolds(s: System, id: Id)
    requires Inv(s) && id in s.heap && s.heap[id].state.Idle?
    ensures Inv(Submit(s, id))
  {
    hide Cells, Tracked, Descriptors, CounterExact;
    CellFacts(s, None, 0, 0, id);
    var c := s.heap[id];
    var d := c.(state := Submitted(false), strong := c.strong + 1, submitted := true);
    CellsAfter(s.heap, s.pool, None, id, d, None);
    DescriptorsAfter(s, id, d);
    SameDescriptors(s.(heap := s.heap[id := d]), Submit(s, id));
    SubmitTracked(s.heap, c.iopoll, RingOf(s, c.iopoll), id, d,
      if c.state.timespec then [Op(id), Timeout(id)] else [Op(id)]);
    OtherRing(s.heap, !c.iopoll, RingOf(s, !c.iopoll), id, d);
  }

  lemma {:induction false} SubmitTracked(heap: map<Id, Cell>, iopoll: bool, r: Ring, id: Id, d: Cell,
      entries: seq<Entry>)
    requires Tracked(heap, iopoll, r) && CounterExact(r, 0)
    requires id in heap && heap[id].state.Idle? && d.state.Submitted? && d.iopoll == iopoll && d.answer == None
    requires entries == [Op(id), Timeout(id)] || entries == [Op(id)]
    ensures var q := r.(sq := r.sq + entries, inFlight := r.inFlight + |entries|);
      Tracked(heap[id := d], iopoll, q) && CounterExact(q, 0)
  {
    hide Unreaped, InFlight;
    PushAdds(r, entries);
    EntriesOf(id, entries);
    NowInFlight(heap, iopoll, id, d);
    Absent(r, id);
    SubmitQueues(heap, iopoll, r, id, d, entries);
  }

  lemma NowInFlight(heap: map<Id, Cell>, iopoll: bool, id: Id, d: Cell)
    requires id in heap && heap[id].state.Idle? && d.state.Submitted? && d.iopoll == iopoll
    ensures !InFlight(heap, id, iopoll)
    ensures forall x: Id :: B(InFlight(heap[id := d], x, iopoll)) == B(InFlight(heap, x, iopoll)) + B(x == id)
  {
  }

  // What is on its way to the kernel is allocated and unanswered.
  lemma SubmitQueues(heap: map<Id, Cell>, iopoll: bool, r: Ring, id: Id, d: Cell, entries: seq<Entry>)
    requires Tracked(heap, iopoll, r) && id in heap && d.answer == None
    requires forall x: Id :: multiset(entries)[Op(x)] == B(x == id)
    requires forall i :: 0 <= i < |r.cq| ==> r.cq[i].entry != Op(id)
    ensures forall x: Id :: Op(x) in multiset(r.sq + entries) + r.kernel ==>
      x in heap[id := d] && heap[id := d][x].answer == None
    ensures forall i :: 0 <= i < |r.cq| && r.cq[i].entry.Op? ==>
      var x := r.cq[i].entry.id; x in heap[id := d] && heap[id := d][x].answer == Some(r.cq[i].result)
  {
    hide Unreaped, InFlight;
    forall x: Id | Op(x) in multiset(r.sq + entries) + r.kernel
      ensures x in heap[id := d] && heap[id := d][x].answer == None
    {
      if x != id {
        assert Op(x) !in multiset(entries);
        assert Op(x) in multiset(r.sq) + r.kernel;
      }
    }
  }

  lemma EntriesOf(id: Id, entries: seq<Entry>)
    requires entries == [Op(id), Timeout(id)] || entries == [Op(id)]
    ensures forall x: Id :: multiset(entries)[Op(x)] == B(x == id)
  {
  }

  // The ring that a request does not use.
  lemma OtherRing(heap: map<Id, Cell>, iopoll: bool, r: Ring, id: Id, d: Cell)
    requires Tracked(heap, iopoll, r) && id in heap && heap[id].iopoll != iopoll && d.iopoll != iopoll
    ensures Tracked(heap[id := d], iopoll, r)
  {
    hide Unreaped;
    assert forall x :: InFlight(heap[id := d], x, iopoll) == InFlight(heap, x, iopoll);
    Absent(r, id);
  }

  // The end of a request's responsibility, by a poll or by a drop: each of its descriptors has
  // then been closed or handed out. `closed` and `given` are what this step closes and hands out.
  lemma FinishDescriptors(s: System, t: System, id: Id, d: Cell, closed: multiset<Fd>, given: multiset<Fd>)
    requires Descriptors(s) && id in s.heap && LifeCycle(s.heap[id])
    requires s.heap[id].handle && s.heap[id].state.Completed? && !d.handle
    requires var c := s.heap[id]; var result := c.state.result;
      && t.heap == s.heap[id := d] && t.known == s.known && t.owner == s.owner - Settled(c, result)
      && closed + given == One(FinishClose(c, result)) + One(Opened(c.kind, result))
    requires t.closes == s.closes + closed && t.handed == s.handed + given && t.back == s.back
    requires given <= One(Opened(s.heap[id].kind, s.heap[id].state.result))
    ensures Descriptors(t)
  {
    var c := s.heap[id];
    var settled := Settled(c, c.state.result);
    assert forall fd :: Responsible(c, fd) <==> fd in settled;
    assert forall fd :: !Responsible(d, fd);
    OwnedAfter(s.heap, s.known, s.owner, id, d, t.known, t.owner);
    SettledOnce(c);
    assert forall fd :: given[fd] <= One(Opened(c.kind, c.state.result))[fd] <= B(c.kind.Open?);
    FinishBalanced(s, t, id, d, settled, closed, given);
  }

  // A close is settled by the kernel or in user space, an open by its result.
  lemma SettledOnce(c: Cell)
    requires LifeCycle(c) && c.handle && c.state.Completed?
    ensures var result := c.state.result;
      forall fd :: (One(FinishClose(c, result)) + One(Opened(c.kind, result)))[fd]
        == if fd in Settled(c, result) then 1 - B(ClosedByKernel(c)) else 0
  {
  }

  lemma FinishBalanced(s: System, t: System, id: Id, d: Cell, settled: set<Fd>, closed: multiset<Fd>,
      given: multiset<Fd>)
    requires Descriptors(s) && id in s.heap
    requires t.heap == s.heap[id := d] && t.known == s.known && t.owner == s.owner - settled
    requires t.closes == s.closes + closed && t.handed == s.handed + given && t.back == s.back
    requires forall fd :: given[fd] <= B(s.heap[id].kind.Open?)
    requires forall fd :: Responsible(s.heap[id], fd) <==> fd in settled
    requires forall fd :: (closed + given)[fd] == if fd in settled then 1 - B(ClosedByKernel(s.heap[id])) else 0
    ensures Balanced(t)
  {
    assert forall x :: x != id ==> ClosesOf(t.heap, x) == ClosesOf(s.heap, x);
    assert forall x :: x != id ==> HandedAtMost(t.heap, x) == HandedAtMost(s.heap, x);
    assert ClosesOf(s.heap, id) == B(ClosedByKernel(s.heap[id]));
    assert HandedAtMost(s.heap, id) == 1 - B(s.heap[id].kind.Open?);
    hide Responsible, ClosesOf, ClosedByKernel, HandedAtMost;
    forall fd
      ensures Fate(t, fd)
    {
      assert Fate(s, fd);
      assert (closed + given)[fd] == closed[fd] + given[fd];
      if fd in settled {
        assert fd in s.owner && s.owner[fd] == id;
      } else {
        assert fd in s.owner ==> s.owner[fd] != id;
      }
    }
  }

  lemma PollReadyHolds(s: System, id: Id)
    requires Inv(s) && id in s.heap && s.heap[id].handle && !s.heap[id].dropping && s.heap[id].state.Completed?
    ensures s.heap[id].strong > 0 && Inv(PollReady(s, id))
  {
    hide Cells, Tracked, Descriptors, CounterExact, Made, ClosedByKernel, Settled, One, FinishClose, Opened;
    CellFacts(s, None, 0, 0, id);
    var c := s.heap[id];
    var result := c.state.result;
    var d := c.(state := Terminated, handle := false, fd := None);
    var u := HandOver(s, id);
    FinishDescriptors(s, u, id, d, One(FinishClose(c, result)), One(Opened(c.kind, result)));
    CellsAfter(s.heap, s.pool, None, id, d, Some(id));
    TrackedAfter(s.heap, false, s.ring, id, d);
    TrackedAfter(s.heap, true, s.ringPoll, id, d);
    ReturnHolds(u, id, 0, 0);
  }

  lemma StartDropHolds(s: System, id: Id)
    requires Inv(s) && id in s.heap && s.heap[id].handle
    ensures Inv(StartDrop(s, id))
  {
    hide Cells, Tracked, Descriptors, CounterExact;
    CancelHolds(s, id);
    var t := Cancel(s, id);
    CellFacts(t, None, 0, 0, id);
    KeepsHolds(t, None, 0, 0, id, t.heap[id].(dropping := true), None);
  }

  lemma FinishDropHolds(s: System, id: Id)
    requires Inv(s) && id in s.heap && s.heap[id].dropping && !MustWait(s.heap[id])
    ensures s.heap[id].strong > 0 && Inv(FinishDrop(s, id))
  {
    hide Cells, Tracked, Descriptors, CounterExact;
    CellFacts(s, None, 0, 0, id);
    if s.heap[id].state.Completed? {
      DropCompleted(s, id);
    } else {
      DropOwned(s, id);
    }
  }

  lemma DropCompleted(s: System, id: Id)
    requires Inv(s) && id in s.heap && s.heap[id].dropping && s.heap[id].state.Completed?
    ensures s.heap[id].strong > 0 && Inv(FinishDrop(s, id))
  {
    hide Cells, Tracked, Descriptors, CounterExact, Made, ClosedByKernel, Settled, One, FinishClose, Opened;
    CellFacts(s, None, 0, 0, id);
    var c := s.heap[id];
    var result := c.state.result;
    var d := c.(state := Terminated, handle := false, dropping := false, fd := None);
    var u := Abandon(s, id);
    assert s.handed + multiset{} == s.handed;
    FinishDescriptors(s, u, id, d, One(FinishClose(c, result)) + One(Opened(c.kind, result)), multiset{});
    CellsAfter(s.heap, s.pool, None, id, d, Some(id));
    TrackedAfter(s.heap, false, s.ring, id, d);
    TrackedAfter(s.heap, true, s.ringPoll, id, d);
    ReleaseHolds(u, id, 0, 0);
  }

  // A request that owns its buffers is left to the kernel.
  lemma DropOwned(s: System, id: Id)
    requires Inv(s) && id in s.heap && s.heap[id].dropping && !MustWait(s.heap[id]) && !s.heap[id].state.Completed?
    ensures s.heap[id].strong > 0 && Inv(FinishDrop(s, id))
  {
    hide Cells, Tracked, Descriptors, CounterExact;
    CellFacts(s, None, 0, 0, id);
    var c := s.heap[id];
    var d := c.(handle := false, dropping := false);
    var u := s.(heap := s.heap[id := d]);
    PlainDescriptors(s, id, d);
    CellsAfter(s.heap, s.pool, None, id, d, Some(id));
    TrackedAfter(s.heap, false, s.ring, id, d);
    TrackedAfter(s.heap, true, s.ringPoll, id, d);
    ReleaseHolds(u, id, 0, 0);
  }

  lemma PlainDescriptors(s: System, id: Id, d: Cell)
    requires Descriptors(s) && id in s.heap && s.heap[id].kind.Plain? && d.kind.Plain?
    ensures Descriptors(s.(heap := s.heap[id := d]))
  {
    assert forall fd :: !Responsible(s.heap[id], fd) && !Responsible(d, fd);
    assert forall x :: ClosesOf(s.heap[id := d], x) == ClosesOf(s.heap, x);
    assert forall x :: HandedAtMost(s.heap[id := d], x) == HandedAtMost(s.heap, x);
    hide Responsible, ClosesOf, HandedAtMost;
    SameFates(s, s.(heap := s.heap[id := d]));
  }

  lemma LeaveScopeHolds(s: System, id: Id)
    requires Inv(s) && id in s.heap && s.heap[id].scopes > 0
    ensures s.heap[id].strong > 0 && Inv(LeaveScope(s, id))
  {
    hide Cells, Tracked, Descriptors, CounterExact;
    CellFacts(s, None, 0, 0, id);
    var c := s.heap[id];
    var d := c.(scopes := c.scopes - 1);
    KeepsHolds(s, None, 0, 0, id, d, Some(id));
    ReturnHolds(s.(heap := s.heap[id := d]), id, 0, 0);
  }

  lemma EnterHolds(s: System, iopoll: bool, n: nat)
    requires Inv(s) && n <= |RingOf(s, iopoll).sq|
    ensures Inv(Enter(s, iopoll, n)) && n <= RingOf(s, iopoll).inFlight
  {
    hide Cells, Descriptors, Tracked, Unreaped;
    var r := RingOf(s, iopoll);
    var q := RingOf(Enter(s, iopoll, n), iopoll);
    EnterMoves(r, q, n);
    TrackedSame(s.heap, iopoll, r, q);
    SameDescriptors(s, Enter(s, iopoll, n));
  }

  lemma TrackedSame(heap: map<Id, Cell>, iopoll: bool, r: Ring, q: Ring)
    requires Tracked(heap, iopoll, r)
    requires Unreaped(q) == Unreaped(r) && multiset(q.sq) + q.kernel == multiset(r.sq) + r.kernel && q.cq == r.cq
    ensures Tracked(heap, iopoll, q)
  {
    hide Unreaped, InFlight;
  }

  lemma EnterMoves(r: Ring, q: Ring, n: nat)
    requires n <= |r.sq|
    requires q == r.(sq := r.sq[n..], kernel := r.kernel + multiset(r.sq[..n]), taken := r.taken + r.sq[..n])
    ensures Unreaped(q) == Unreaped(r) && multiset(q.sq) + q.kernel == multiset(r.sq) + r.kernel
    ensures n <= |Unreaped(r)|
  {
    assert r.sq == r.sq[..n] + r.sq[n..];
  }

  // What the environment promises: a result for a request that the kernel has, `CANCELED` for a
  // close only after a cancel request, and a descriptor that is new.
  predicate CanAnswer(s: System, iopoll: bool, entry: Entry, result: Res) {
    && entry in RingOf(s, iopoll).kernel
    && (entry.Op? && entry.id in s.heap ==>
          var c := s.heap[entry.id];
          && (c.kind.Close? && result == Canceled ==> c.state == Submitted(true))
          && (Opened(c.kind, result).Some? ==> Opened(c.kind, result).value !in s.known))
  }

  lemma AnswerHolds(s: System, iopoll: bool, entry: Entry, result: Res)
    requires Inv(s) && CanAnswer(s, iopoll, entry, result)
    ensures (entry.Op? ==> entry.id in s.heap) && Inv(Answer(s, iopoll, entry, result))
  {
    hide Cells, Descriptors, Tracked, CounterExact, Unreaped, Opened, ClosedByKernel;
    var r := RingOf(s, iopoll);
    var q := r.(kernel := r.kernel - multiset{entry}, cq := r.cq + [Cqe(entry, result)]);
    AnswerMoves(r, q, entry, result);
    if !entry.Op? {
      AnswerSilent(s.heap, iopoll, r, q, entry, result);
      SameDescriptors(s, Answer(s, iopoll, entry, result));
    } else {
      var id := entry.id;
      InKernel(s.heap, iopoll, r, id);
      AnswerOp(s, iopoll, id, result, q);
    }
    SameCount(s, iopoll, r, q);
  }

  lemma SameCount(s: System, iopoll: bool, r: Ring, q: Ring)
    requires Inv(s) && r == RingOf(s, iopoll) && Unreaped(q) == Unreaped(r) && q.inFlight == r.inFlight
    ensures CounterExact(q, 0)
  {
    hide Cells, Descriptors, Tracked, Unreaped;
  }

  lemma AnswerMoves(r: Ring, q: Ring, entry: Entry, result: Res)
    requires entry in r.kernel
    requires q == r.(kernel := r.kernel - multiset{entry}, cq := r.cq + [Cqe(entry, result)])
    ensures Unreaped(q) == Unreaped(r)
    ensures multiset(q.sq) + q.kernel + multiset{entry} == multiset(r.sq) + r.kernel
  {
    assert Entries(q.cq) == Entries(r.cq) + [entry];
  }

  lemma AnswerSilent(heap: map<Id, Cell>, iopoll: bool, r: Ring, q: Ring, entry: Entry, result: Res)
    requires Tracked(heap, iopoll, r) && !entry.Op?
    requires Unreaped(q) == Unreaped(r) && multiset(q.sq) + q.kernel + multiset{entry} == multiset(r.sq) + r.kernel
    requires q.cq == r.cq + [Cqe(entry, result)]
    ensures Tracked(heap, iopoll, q)
  {
    hide Unreaped, InFlight;
    assert forall x :: x in multiset(q.sq) + q.kernel ==> x in multiset(r.sq) + r.kernel;
  }

  // A request that the kernel has is allocated, submitted and unanswered, and is nowhere else.
  lemma InKernel(heap: map<Id, Cell>, iopoll: bool, r: Ring, id: Id)
    requires Tracked(heap, iopoll, r) && Op(id) in r.kernel
    ensures id in heap && heap[id].state.Submitted? && heap[id].iopoll == iopoll && heap[id].answer == None
    ensures (multiset(r.sq) + r.kernel)[Op(id)] == 1
    ensures forall i :: 0 <= i < |r.cq| ==> r.cq[i].entry != Op(id)
  {
    assert Op(id) in multiset(r.sq) + r.kernel;
    var n := (multiset(r.sq) + r.kernel)[Op(id)];
    assert Unreaped(r)[Op(id)] == n + multiset(Entries(r.cq))[Op(id)];
    assert multiset(Entries(r.cq))[Op(id)] == 0;
    assert forall i :: 0 <= i < |r.cq| ==> Entries(r.cq)[i] == r.cq[i].entry;
  }

  lemma AnswerOp(s: System, iopoll: bool, id: Id, result: Res, q: Ring)
    requires Inv(s) && CanAnswer(s, iopoll, Op(id), result)
    requires id in s.heap && s.heap[id].state.Submitted? && s.heap[id].iopoll == iopoll && s.heap[id].answer == None
    requires q == RingOf(Answer(s, iopoll, Op(id), result), iopoll)
    ensures var t := Answer(s, iopoll, Op(id), result);
      Cells(t.heap, t.pool, None) && Tracked(t.heap, false, t.ring) && Tracked(t.heap, true, t.ringPoll)
          && Descriptors(t)
  {
    hide Cells, Descriptors, Tracked, CounterExact, Unreaped;
    CellFacts(s, None, 0, 0, id);
    var t := Answer(s, iopoll, Op(id), result);
    var r := RingOf(s, iopoll);
    var d := s.heap[id].(answer := Some(result));
    CellsAfter(s.heap, s.pool, None, id, d, None);
    AnswerMoves(r, q, Op(id), result);
    InKernel(s.heap, iopoll, r, id);
    AnswerTracked(s.heap, iopoll, r, q, id, d);
    OtherRing(s.heap, !iopoll, RingOf(s, !iopoll), id, d);
    AnswerDescriptors(s, t, id, result);
  }

  lemma AnswerTracked(heap: map<Id, Cell>, iopoll: bool, r: Ring, q: Ring, id: Id, d: Cell)
    requires Tracked(heap, iopoll, r) && id in heap && d.state == heap[id].state && d.iopoll == heap[id].iopoll
        && d.answer.Some?
    requires Unreaped(q) == Unreaped(r) && multiset(q.sq) + q.kernel + multiset{Op(id)} == multiset(r.sq) + r.kernel
    requires q.cq == r.cq + [Cqe(Op(id), d.answer.value)]
    requires (multiset(r.sq) + r.kernel)[Op(id)] == 1
    requires forall i :: 0 <= i < |r.cq| ==> r.cq[i].entry != Op(id)
    ensures Tracked(heap[id := d], iopoll, q)
  {
    hide Unreaped;
    assert forall x :: InFlight(heap[id := d], x, iopoll) == InFlight(heap, x, iopoll);
    var a, b := multiset(q.sq) + q.kernel, multiset(r.sq) + r.kernel;
    assert forall e :: e in a ==> e in b;
    assert (a + multiset{Op(id)})[Op(id)] == a[Op(id)] + 1;
    hide InFlight;
  }

  lemma AnswerDescriptors(s: System, t: System, id: Id, result: Res)
    requires Descriptors(s) && id in s.heap && LifeCycle(s.heap[id])
    requires s.heap[id].state.Submitted? && s.heap[id].answer == None
    requires var made := Opened(s.heap[id].kind, result);
      && (made.Some? ==> made.value !in s.known)
      && t.heap == s.heap[id := s.heap[id].(answer := Some(result))] && t.handed == s.handed && t.back == s.back
      && t.closes == s.closes
          + (if s.heap[id].kind.Close? && result != Canceled then multiset{s.heap[id].kind.given} else multiset{})
      && t.known == (if made.Some? then s.known + {made.value} else s.known)
      && t.owner == (if made.Some? then s.owner[made.value := id] else s.owner)
    ensures Descriptors(t)
  {
    var c, d := s.heap[id], t.heap[id];
    var made := Opened(c.kind, result);
    if made.Some? {
      assert forall fd :: Responsible(d, fd) <==> fd == made.value;
      assert forall fd :: !Responsible(c, fd);
      OwnedAfter(s.heap, s.known, s.owner, id, d, t.known, t.owner);
      MadeBalanced(s, t, id, made.value);
    } else {
      assert forall fd :: Responsible(d, fd) == Responsible(c, fd);
      OwnedAfter(s.heap, s.known, s.owner, id, d, t.known, t.owner);
      ClosedBalanced(s, t, id, result);
    }
  }

  lemma MadeBalanced(s: System, t: System, id: Id, fd: Fd)
    requires Balanced(s) && fd !in s.known && id in s.heap && id in t.heap && s.heap[id].kind.Open?
        && t.heap[id].kind.Open?
    requires t.heap == s.heap[id := t.heap[id]] && t.closes == s.closes && t.handed == s.handed && t.back == s.back
    requires t.known == s.known + {fd} && t.owner == s.owner[fd := id]
    ensures Balanced(t)
  {
    assert forall x :: ClosesOf(t.heap, x) == ClosesOf(s.heap, x);
    assert forall x :: HandedAtMost(t.heap, x) == HandedAtMost(s.heap, x);
    assert ClosesOf(t.heap, id) == 0;
    hide ClosesOf, HandedAtMost;
    forall x
      ensures Fate(t, x)
    {
      assert Fate(s, x);
    }
  }

  lemma ClosedBalanced(s: System, t: System, id: Id, result: Res)
    requires Descriptors(s) && id in s.heap && s.heap[id].answer == None && !Opened(s.heap[id].kind, result).Some?
    requires s.heap[id].kind.Close? ==> s.heap[id].handle
    requires t.heap == s.heap[id := s.heap[id].(answer := Some(result))] && t.handed == s.handed && t.back == s.back
    requires t.closes == s.closes
      + (if s.heap[id].kind.Close? && result != Canceled then multiset{s.heap[id].kind.given} else multiset{})
    requires t.known == s.known && t.owner == s.owner
    ensures Balanced(t)
  {
    var c := s.heap[id];
    assert forall x :: x != id ==> ClosesOf(t.heap, x) == ClosesOf(s.heap, x);
    assert ClosesOf(s.heap, id) == 0 && ClosesOf(t.heap, id) == B(c.kind.Close? && result != Canceled);
    assert forall x :: HandedAtMost(t.heap, x) == HandedAtMost(s.heap, x);
    assert forall fd :: Responsible(c, fd) <==> c.handle && c.kind == Close(fd);
    hide ClosesOf, Responsible, HandedAtMost;
    forall fd
      ensures Fate(t, fd)
    {
      assert Fate(s, fd);
      if c.kind == Close(fd) {
        assert fd in s.owner && s.owner[fd] == id;
      } else {
        assert t.closes[fd] == s.closes[fd];
        assert fd in s.owner && s.owner[fd] == id ==> Responsible(c, fd);
      }
    }
  }

  // A posted request is allocated and still submitted: neither panic of the reaping loop can
  // happen.
  lemma PostedIsSubmitted(heap: map<Id, Cell>, iopoll: bool, r: Ring, i: nat)
    requires Tracked(heap, iopoll, r) && i < |r.cq| && r.cq[i].entry.Op?
    ensures var id := r.cq[i].entry.id;
      id in heap && heap[id].state.Submitted? && heap[id].iopoll == iopoll && heap[id].answer == Some(r.cq[i].result)
  {
    var e := r.cq[i].entry;
    assert Entries(r.cq)[i] == e;
    assert e in multiset(Entries(r.cq));
    assert Unreaped(r)[e] > 0;
  }

  lemma ReapOneHolds(s: System, iopoll: bool, n: nat, m: nat)
    requires Holds(s, None, n, m) && RingOf(s, iopoll).cq != []
    ensures var e := RingOf(s, iopoll).cq[0].entry;
      e.Op? ==> e.id in s.heap && s.heap[e.id].state.Submitted? && s.heap[e.id].strong > 0
    ensures Holds(ReapOne(s, iopoll), None, n + B(!iopoll), m + B(iopoll))
    ensures RingOf(ReapOne(s, iopoll), iopoll) == RingOf(s, iopoll).(cq := RingOf(s, iopoll).cq[1..])
  {
    hide Cells, Descriptors, Tracked, CounterExact, Unreaped, LifeCycle, Counted;
    var r := RingOf(s, iopoll);
    var q := r.(cq := r.cq[1..]);
    var e := r.cq[0].entry;
    ReapCounts(r, q, if iopoll then m else n);
    if !e.Op? {
      ReapSilent(s.heap, iopoll, r, q);
      SameDescriptors(s, ReapOne(s, iopoll));
    } else {
      PostedIsSubmitted(s.heap, iopoll, r, 0);
      CellFacts(s, None, n, m, e.id);
      Positive(s.heap[e.id], e.id in s.pool, false);
      ReapOp(s, iopoll, n, m, q);
    }
  }

  lemma Positive(c: Cell, pooled: bool, loose: bool)
    requires Counted(c, pooled, loose)
    ensures c.strong > 0
  {
  }

  lemma ReapCounts(r: Ring, q: Ring, done: nat)
    requires r.cq != [] && q == r.(cq := r.cq[1..]) && CounterExact(r, done)
    ensures Unreaped(r) == Unreaped(q) + multiset{r.cq[0].entry} && CounterExact(q, done + 1)
  {
    assert Entries(r.cq) == [r.cq[0].entry] + Entries(q.cq);
  }

  lemma ReapSilent(heap: map<Id, Cell>, iopoll: bool, r: Ring, q: Ring)
    requires Tracked(heap, iopoll, r) && r.cq != [] && !r.cq[0].entry.Op? && q == r.(cq := r.cq[1..])
    requires Unreaped(r) == Unreaped(q) + multiset{r.cq[0].entry}
    ensures Tracked(heap, iopoll, q)
  {
    hide Unreaped, InFlight;
    assert forall i :: 0 <= i < |q.cq| ==> q.cq[i] == r.cq[i + 1];
    assert forall id: Id :: Unreaped(q)[Op(id)] == (Unreaped(q) + multiset{r.cq[0].entry})[Op(id)];
  }

  lemma ReapTracked(heap: map<Id, Cell>, iopoll: bool, r: Ring, q: Ring, id: Id, d: Cell)
    requires Tracked(heap, iopoll, r) && r.cq != [] && r.cq[0].entry == Op(id) && q == r.(cq := r.cq[1..])
    requires id in heap && heap[id].state.Submitted? && heap[id].iopoll == iopoll && !d.state.Submitted?
    requires Unreaped(r) == Unreaped(q) + multiset{Op(id)}
    ensures Tracked(heap[id := d], iopoll, q)
  {
    hide Unreaped;
    assert InFlight(heap, id, iopoll) && !InFlight(heap[id := d], id, iopoll);
    assert forall x :: x != id ==> InFlight(heap[id := d], x, iopoll) == InFlight(heap, x, iopoll);
    hide InFlight;
    assert forall x: Id :: Unreaped(r)[Op(x)] == Unreaped(q)[Op(x)] + multiset{Op(id)}[Op(x)];
    Absent(q, id);
    assert forall i :: 0 <= i < |q.cq| ==> q.cq[i] == r.cq[i + 1];
  }

  lemma ReapOp(s: System, iopoll: bool, n: nat, m: nat, q: Ring)
    requires Holds(s, None, n, m) && RingOf(s, iopoll).cq != [] && RingOf(s, iopoll).cq[0].entry.Op?
    requires q == RingOf(s, iopoll).(cq := RingOf(s, iopoll).cq[1..])
    requires CounterExact(q, 1 + if iopoll then m else n)
    requires var id := RingOf(s, iopoll).cq[0].entry.id;
      && id in s.heap && s.heap[id].state.Submitted? && s.heap[id].strong > 0
      && s.heap[id].iopoll == iopoll && s.heap[id].answer == Some(RingOf(s, iopoll).cq[0].result)
    requires Unreaped(RingOf(s, iopoll)) == Unreaped(q) + multiset{RingOf(s, iopoll).cq[0].entry}
    ensures Holds(ReapOne(s, iopoll), None, n + B(!iopoll), m + B(iopoll))
    ensures RingOf(ReapOne(s, iopoll), iopoll) == q
  {
    hide Cells, Descriptors, Tracked, CounterExact, Unreaped, LifeCycle, Counted, ReturnCompletion;
    var r := RingOf(s, iopoll);
    var id := r.cq[0].entry.id;
    var c := s.heap[id];
    var result := if r.cq[0].result == Canceled && !c.state.canceled then TimedOut else r.cq[0].result;
    var d := c.(state := Completed(result));
    CellFacts(s, None, n, m, id);
    ReapCell(c, id in s.pool, d);
    var u := WithRing(s, iopoll, q).(heap := s.heap[id := d]);
    CellsAfter(s.heap, s.pool, None, id, d, Some(id));
    ReapTracked(s.heap, iopoll, r, q, id, d);
    OtherRing(s.heap, !iopoll, RingOf(s, !iopoll), id, d);
    DescriptorsAfter(s, id, d);
    SameDescriptors(s.(heap := s.heap[id := d]), u);
    ReturnHolds(u, id, n + B(!iopoll), m + B(iopoll));
    ReturnKeepsRings(u, id);
  }

  lemma ReapCell(c: Cell, pooled: bool, d: Cell)
    requires Counted(c, pooled, false) && LifeCycle(c) && c.state.Submitted? && c.answer.Some?
    requires d == c.(state :=
      Completed(if c.answer.value == Canceled && !c.state.canceled then TimedOut else c.answer.value))
    ensures Counted(d, pooled, true) && LifeCycle(d) && (d.strong == 1 ==> !d.handle)
  {
  }

  lemma ReturnKeepsRings(s: System, id: Id)
    requires id in s.heap && s.heap[id].strong > 0
    ensures ReturnCompletion(s, id).ring == s.ring && ReturnCompletion(s, id).ringPoll == s.ringPoll
  {
  }

  // The state inside `process_completions` after `k` rounds of its loop.
  ghost function Reaped(s: System, iopoll: bool, k: nat): (t: System)
    requires Inv(s) && k <= |RingOf(s, iopoll).cq|
    ensures Holds(t, None, if iopoll then 0 else k, if iopoll then k else 0)
    ensures RingOf(t, iopoll) == RingOf(s, iopoll).(cq := RingOf(s, iopoll).cq[k..])
  {
    if k == 0 then s
    else
      var u := Reaped(s, iopoll, k - 1);
      ReapOneHolds(u, iopoll, if iopoll then 0 else k - 1, if iopoll then k - 1 else 0);
      ReapOne(u, iopoll)
  }

  // `process_completions`. The decrement of the statistics never underflows.
  ghost function Reap(s: System, iopoll: bool): System
    requires Inv(s)
  {
    var n := |RingOf(s, iopoll).cq|;
    var u := Reaped(s, iopoll, n);
    CountEnough(u, iopoll, n);
    WithRing(u, iopoll, RingOf(u, iopoll).(inFlight := RingOf(u, iopoll).inFlight - n))
  }

  lemma ReapHolds(s: System, iopoll: bool)
    requires Inv(s)
    ensures Inv(Reap(s, iopoll)) && RingOf(Reap(s, iopoll), iopoll).cq == []
  {
    hide Holds, Reaped, Unreaped;
    var n := |RingOf(s, iopoll).cq|;
    var u := Reaped(s, iopoll, n);
    CountEnough(u, iopoll, n);
    DecrementHolds(u, Reap(s, iopoll), iopoll, n);
  }

  lemma CountEnough(u: System, iopoll: bool, n: nat)
    requires Holds(u, None, if iopoll then 0 else n, if iopoll then n else 0)
    ensures RingOf(u, iopoll).inFlight >= n
  {
    hide Cells, Descriptors, Tracked, Unreaped;
  }

  lemma DecrementHolds(u: System, t: System, iopoll: bool, n: nat)
    requires Holds(u, None, if iopoll then 0 else n, if iopoll then n else 0) && RingOf(u, iopoll).inFlight >= n
    requires t == WithRing(u, iopoll, RingOf(u, iopoll).(inFlight := RingOf(u, iopoll).inFlight - n))
    ensures Inv(t)
  {
    hide Cells, Descriptors, Tracked, Unreaped;
    SameUnreaped(RingOf(u, iopoll), RingOf(t, iopoll));
    TrackedSame(u.heap, iopoll, RingOf(u, iopoll), RingOf(t, iopoll));
    SameDescriptors(u, t);
  }

  lemma SameUnreaped(r: Ring, q: Ring)
    requires q == r.(inFlight := q.inFlight)
    ensures Unreaped(q) == Unreaped(r)
  {
  }
}
