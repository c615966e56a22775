// The completion protocol between ring futures, io scopes, the kernel and the completion pool.

module CompletionSpec {
  import opened Bytes

  // The address of a completion.
  type Id = nat

  // The identity of an open descriptor.
  type Fd = nat

  const MAX_COMPLETION_POOL_ENTRIES := 4096

  // `Ok(value)`, `CANCELED`, `TIME` and every other errno.
  datatype Res = Success(value: nat) | Canceled | TimedOut | Failed

  // What a request is about. `Plain(owned)` produces no descriptor, and owns its buffers or
  // borrows them; `Open` produces a descriptor; `Close` was given one.
  datatype Kind = Plain(owned: bool) | Open | Close(given: Fd)

  datatype State = Idle(timespec: bool) | Submitted(canceled: bool) | Completed(result: Res) | Terminated

  // `strong` is the reference count; `handle` and `scopes` say which futures and scope lists
  // hold a reference; `requested` says whether somebody asked to cancel the request, and
  // `answer` is the kernel's result once it has posted it. `timed` says whether the request was
  // created with a timeout, `submitted` whether it was submitted, and `since` how many submissions
  // its ring had seen when it was created.
  datatype Cell = Cell(
    kind: Kind, iopoll: bool, state: State, fd: Option<Fd>,
    strong: nat, handle: bool, dropping: bool, scopes: nat, requested: bool, answer: Option<Res>,
    timed: bool, submitted: bool, since: nat)

  // The operation of a request, the timeout that is linked to it, and the request to cancel it. The
  // last two carry no completion.
  datatype Entry = Op(id: Id) | Timeout(id: Id) | CancelOf(id: Id)

  datatype Cqe = Cqe(entry: Entry, result: Res)

  // `taken` lists the submissions that the kernel has accepted, in order.
  datatype Ring = Ring(sq: seq<Entry>, kernel: multiset<Entry>, cq: seq<Cqe>, inFlight: nat, taken: seq<Entry>)

  // All submissions of a ring, in order.
  function Pushed(r: Ring): seq<Entry> {
    r.taken + r.sq
  }

  // `closes` holds every close of a descriptor, by the kernel or in user space, `handed` every
  // descriptor returned to a caller, and `back` every one of these that has left the caller's
  // hands again, given to a close or dropped. `owner` maps a descriptor to the request that is
  // responsible for it.
  datatype System = System(
    heap: map<Id, Cell>, pool: seq<Id>, ring: Ring, ringPoll: Ring,
    closes: multiset<Fd>, handed: multiset<Fd>, back: multiset<Fd>, known: set<Fd>, owner: map<Fd, Id>)

  const EMPTY_RING := Ring([], multiset{}, [], 0, [])
  const INITIAL := System(map[], [], EMPTY_RING, EMPTY_RING, multiset{}, multiset{}, multiset{}, {}, map[])

  function RingOf(s: System, iopoll: bool): Ring {
    if iopoll then s.ringPoll else s.ring
  }

  function WithRing(s: System, iopoll: bool, r: Ring): System {
    if iopoll then s.(ringPoll := r) else s.(ring := r)
  }

  function One(fd: Option<Fd>): multiset<Fd> {
    if fd.Some? then multiset{fd.value} else multiset{}
  }

  // `Ring::submit` and the statistics beside it.
  function Push(s: System, iopoll: bool, entries: seq<Entry>): System {
    var r := RingOf(s, iopoll);
    WithRing(s, iopoll, r.(sq := r.sq + entries, inFlight := r.inFlight + |entries|))
  }

  // Gives up one reference. The last one frees the completion, and with it a descriptor that
  // it still owns.
  function Release(s: System, id: Id): System
    requires id in s.heap && s.heap[id].strong > 0
  {
    var c := s.heap[id];
    if c.strong == 1 then s.(heap := s.heap - {id}, closes := s.closes + One(c.fd))
    else s.(heap := s.heap[id := c.(strong := c.strong - 1)])
  }

  function ReturnCompletion(s: System, id: Id): System
    requires id in s.heap && s.heap[id].strong > 0
  {
    if |s.pool| < MAX_COMPLETION_POOL_ENTRIES && s.heap[id].strong == 1 then s.(pool := s.pool + [id])
    else Release(s, id)
  }

  // `with_polled`: takes a completion from the pool or from the allocator, and registers it
  // with the scope that is open, if any.
  function Create(s: System, id: Id, kind: Kind, iopoll: bool, timespec: bool, inScope: bool): System
    requires if s.pool != [] then id == s.pool[0] && id in s.heap else id !in s.heap
  {
    var fd := if kind.Close? then Some(kind.given) else None;
    var n := if inScope then 1 else 0;
    var c := Cell(kind, iopoll, Idle(timespec), fd, 1 + n, true, false, n, false, None, timespec, false,
      |Pushed(RingOf(s, iopoll))|);
    var dropped := if s.pool != [] then One(s.heap[id].fd) else multiset{};
    s.(heap := s.heap[id := c],
       pool := if s.pool != [] then s.pool[1..] else [],
       closes := s.closes + dropped,
       back := s.back + One(if kind.Close? && kind.given in s.known then fd else None),
       known := if kind.Close? then s.known + {kind.given} else s.known,
       owner := if kind.Close? then s.owner[kind.given := id] else s.owner)
  }

  // The caller drops a descriptor that it was handed.
  function CallerCloses(s: System, fd: Fd): System {
    s.(closes := s.closes + multiset{fd}, back := s.back + multiset{fd})
  }

  // `Completion::cancel`.
  function Cancel(s: System, id: Id): System
    requires id in s.heap
  {
    var c := s.heap[id];
    match c.state
    case Idle(_) => s.(heap := s.heap[id := c.(state := Completed(Canceled), requested := true)])
    case Submitted(false) =>
      Push(s.(heap := s.heap[id := c.(state := Submitted(true), requested := true)]), c.iopoll, [CancelOf(id)])
    case _ => s
  }

  // The first poll: one reference travels with the request, and a timeout is linked to it.
  function Submit(s: System, id: Id): System
    requires id in s.heap && s.heap[id].state.Idle?
  {
    var c := s.heap[id];
    var t := s.(heap := s.heap[id := c.(state := Submitted(false), strong := c.strong + 1, submitted := true)]);
    Push(t, c.iopoll, if c.state.timespec then [Op(id), Timeout(id)] else [Op(id)])
  }

  // The descriptor that a successful open result carries.
  function Opened(kind: Kind, result: Res): Option<Fd> {
    if kind.Open? && result.Success? then Some(result.value) else None
  }

  // The descriptor that `finish_close` closes in user space: the one given to a close that
  // was canceled before the kernel closed it.
  function FinishClose(c: Cell, result: Res): Option<Fd> {
    if result == Canceled then c.fd else None
  }

  // The descriptors for which a request is no longer responsible.
  function Settled(c: Cell, result: Res): set<Fd> {
    var made := Opened(c.kind, result);
    (if c.kind.Close? then {c.kind.given} else {}) + (if made.Some? then {made.value} else {})
  }

  // The result of a completed request goes to the caller.
  function HandOver(s: System, id: Id): System
    requires id in s.heap && s.heap[id].state.Completed?
  {
    var c := s.heap[id];
    var result := c.state.result;
    s.(heap := s.heap[id := c.(state := Terminated, handle := false, fd := None)],
       closes := s.closes + One(FinishClose(c, result)),
       handed := s.handed + One(Opened(c.kind, result)),
       owner := s.owner - Settled(c, result))
  }

  // A poll of a completed request.
  function PollReady(s: System, id: Id): System
    requires id in s.heap && s.heap[id].state.Completed? && s.heap[id].strong > 0
  {
    ReturnCompletion(HandOver(s, id), id)
  }

  // `Drop` first cancels the request.
  function StartDrop(s: System, id: Id): System
    requires id in s.heap
  {
    var t := Cancel(s, id);
    t.(heap := t.heap[id := t.heap[id].(dropping := true)])
  }

  // Whether `Drop` blocks until the request is complete.
  predicate MustWait(c: Cell) {
    c.state.Submitted? && (c.kind.Open? || c.kind.Close? || !c.kind.owned)
  }

  // And then gives up what it was responsible for: a descriptor that nobody received is closed.
  function Abandon(s: System, id: Id): System
    requires id in s.heap
  {
    var c := s.heap[id];
    if c.state.Completed? then
      var result := c.state.result;
      s.(heap := s.heap[id := c.(state := Terminated, handle := false, dropping := false, fd := None)],
         closes := s.closes + (One(FinishClose(c, result)) + One(Opened(c.kind, result))),
         owner := s.owner - Settled(c, result))
    else s.(heap := s.heap[id := c.(handle := false, dropping := false)])
  }

  function FinishDrop(s: System, id: Id): System
    requires id in s.heap && s.heap[id].strong > 0
  {
    Release(Abandon(s, id), id)
  }

  // A scope gives back its reference.
  function LeaveScope(s: System, id: Id): System
    requires id in s.heap && s.heap[id].scopes > 0 && s.heap[id].strong > 0
  {
    var c := s.heap[id];
    ReturnCompletion(s.(heap := s.heap[id := c.(scopes := c.scopes - 1)]), id)
  }

  // The kernel accepts the first `n` submissions.
  function Enter(s: System, iopoll: bool, n: nat): System
    requires n <= |RingOf(s, iopoll).sq|
  {
    var r := RingOf(s, iopoll);
    WithRing(s, iopoll, r.(sq := r.sq[n..], kernel := r.kernel + multiset(r.sq[..n]), taken := r.taken + r.sq[..n]))
  }

  // The kernel finishes a request and posts its result. A close that was not canceled has
  // closed its descriptor, and an open has made one.
  function Answer(s: System, iopoll: bool, entry: Entry, result: Res): System
    requires entry.Op? ==> entry.id in s.heap
  {
    var r := RingOf(s, iopoll);
    var t := WithRing(s, iopoll, r.(kernel := r.kernel - multiset{entry}, cq := r.cq + [Cqe(entry, result)]));
    if !entry.Op? then t
    else
      var c := s.heap[entry.id];
      var made := Opened(c.kind, result);
      t.(heap := s.heap[entry.id := c.(answer := Some(result))],
         closes := s.closes + (if c.kind.Close? && result != Canceled then multiset{c.kind.given} else multiset{}),
         known := if made.Some? then s.known + {made.value} else s.known,
         owner := if made.Some? then s.owner[made.value := entry.id] else s.owner)
  }

  // One round of the loop in `process_completions`. It panics unless the request is submitted.
  function ReapOne(s: System, iopoll: bool): System
    requires var r := RingOf(s, iopoll);
      r.cq != [] && (r.cq[0].entry.Op? ==>
        r.cq[0].entry.id in s.heap && s.heap[r.cq[0].entry.id].state.Submitted? && s.heap[r.cq[0].entry.id].strong > 0)
  {
    var r := RingOf(s, iopoll);
    var cqe := r.cq[0];
    var t := WithRing(s, iopoll, r.(cq := r.cq[1..]));
    if !cqe.entry.Op? then t
    else
      var c := s.heap[cqe.entry.id];
      var result := if cqe.result == Canceled && !c.state.canceled then TimedOut else cqe.result;
      ReturnCompletion(t.(heap := s.heap[cqe.entry.id := c.(state := Completed(result))]), cqe.entry.id)
  }
}
