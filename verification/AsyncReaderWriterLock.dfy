// The reader-writer lock: two events, a reader count and a writer flag.

module RwLockSpec {
  import opened WaitSpec

  datatype RwLock = RwLock(readers: nat, writer: bool, readEvent: Event, writeEvent: Event)

  const NEW := RwLock(0, false, Event(true, []), Event(true, []))

  predicate Free(s: RwLock) {
    s.readers == 0 && !s.writer
  }

  // The events say who may go on, and the two kinds of holder exclude each other.
  predicate Consistent(s: RwLock) {
    && (s.writer ==> s.readers == 0)
    && (s.writeEvent.isSet <==> Free(s))
    && (s.readEvent.isSet <==> !s.writer)
  }

  function AcquireWrite(s: RwLock): RwLock {
    s.(writer := true, writeEvent := Reset(s.writeEvent), readEvent := Reset(s.readEvent))
  }

  function AcquireRead(s: RwLock): RwLock {
    s.(readers := s.readers + 1, writeEvent := Reset(s.writeEvent))
  }

  // The guard that `lock_write` runs however it ends.
  function WakeReaders(s: RwLock): RwLock {
    if s.writer then s else s.(readEvent := SetAll(s.readEvent))
  }

  // One poll of `lock_write`. A future that was polled before resumes inside its wait.
  function PollWrite(s: RwLock, w: Id, registered: bool, canceled: bool, aborted: bool): (Outcome, RwLock) {
    if !registered && Free(s) then (Ready, AcquireWrite(s))
    else
      var (r, e) := PollWait(s.writeEvent, registered, w, true, canceled, aborted);
      match r
      case Ready => (Ready, AcquireWrite(s))
      case Pending => (Pending, s.(writeEvent := e))
      case Canceled => (Canceled, WakeReaders(s.(writeEvent := e)))
      case Panicked => (Panicked, WakeReaders(s.(writeEvent := if registered then Retire(e, w, true) else e)))
  }

  function DropWrite(s: RwLock, w: Id): RwLock {
    WakeReaders(s.(writeEvent := Retire(s.writeEvent, w, true)))
  }

  // One poll of `lock_read`.
  function PollRead(s: RwLock, w: Id, registered: bool, canceled: bool, aborted: bool): (Outcome, RwLock) {
    if !registered && !s.writer then (Ready, AcquireRead(s))
    else
      var (r, e) := PollWait(s.readEvent, registered, w, true, canceled, aborted);
      match r
      case Ready => (Ready, AcquireRead(s))
      case Panicked => (Panicked, s.(readEvent := if registered then Retire(e, w, true) else e))
      case _ => (r, s.(readEvent := e))
  }

  function DropRead(s: RwLock, w: Id): RwLock {
    s.(readEvent := Retire(s.readEvent, w, true))
  }

  function DropWriteRef(s: RwLock): RwLock {
    var u := s.(writer := false);
    if u.writeEvent.queue != [] then
      u.(writeEvent := SetWakeN(u.writeEvent, 1), readEvent := SetWakeN(u.readEvent, 0))
    else
      u.(writeEvent := SetAll(u.writeEvent), readEvent := SetAll(u.readEvent))
  }

  function DropReadRef(s: RwLock): RwLock
    requires s.readers > 0
  {
    s.(readers := s.readers - 1, writeEvent := if s.readers == 1 then SetAll(s.writeEvent) else s.writeEvent)
  }
}

module RwLockSystem {
  import opened Bytes
  import opened Latches
  import opened WaitSpec
  import opened RwLockSpec

  // The pending readers and writers, the canceled ones among them, and the live guards.
  datatype System = System(
    lock: RwLock, readers: set<Id>, writers: set<Id>, canceled: set<Id>, readGuards: nat, writeGuards: nat)

  datatype Action =
    | StartWrite(w: Id, aborted: bool)
    | PollWriter(w: Id, aborted: bool)
    | DropWriter(w: Id)
    | StartRead(w: Id, aborted: bool)
    | PollReader(w: Id, aborted: bool)
    | DropReader(w: Id)
    | Cancel(w: Id)
    | DropWriteGuard
    | DropReadGuard
    | Upgrade(w: Id, aborted: bool)

  const INITIAL := System(NEW, {}, {}, {}, 0, 0)

  predicate New(s: System, w: Id) {
    w !in s.readers && w !in s.writers && w !in s.lock.readEvent.queue && w !in s.lock.writeEvent.queue
  }

  predicate Enabled(s: System, a: Action) {
    match a
    case StartWrite(w, _) => New(s, w)
    case StartRead(w, _) => New(s, w)
    case PollWriter(w, _) => w in s.writers
    case DropWriter(w) => w in s.writers
    case PollReader(w, _) => w in s.readers
    case DropReader(w) => w in s.readers
    case Cancel(w) => w in s.readers + s.writers
    case DropWriteGuard => s.writeGuards > 0
    case DropReadGuard => s.readGuards > 0
    case Upgrade(w, _) => s.readGuards > 0 && New(s, w)
  }

  function WritePolled(s: System, w: Id, r: Outcome, lock: RwLock): System {
    s.(lock := lock,
       writers := if r == Pending then s.writers + {w} else s.writers - {w},
       canceled := if r == Pending then s.canceled else s.canceled - {w},
       writeGuards := if r == Ready then s.writeGuards + 1 else s.writeGuards)
  }

  function ReadPolled(s: System, w: Id, r: Outcome, lock: RwLock): System {
    s.(lock := lock,
       readers := if r == Pending then s.readers + {w} else s.readers - {w},
       canceled := if r == Pending then s.canceled else s.canceled - {w},
       readGuards := if r == Ready then s.readGuards + 1 else s.readGuards)
  }

  function Next(s: System, a: Action): System
    requires Inv(s) && Enabled(s, a)
  {
    match a
    case StartWrite(w, aborted) =>
      var (r, l) := PollWrite(s.lock, w, false, false, aborted);
      WritePolled(s, w, r, l)
    case PollWriter(w, aborted) =>
      var (r, l) := PollWrite(s.lock, w, true, w in s.canceled, aborted);
      WritePolled(s, w, r, l)
    case DropWriter(w) => s.(lock := DropWrite(s.lock, w), writers := s.writers - {w}, canceled := s.canceled - {w})
    case StartRead(w, aborted) =>
      var (r, l) := PollRead(s.lock, w, false, false, aborted);
      ReadPolled(s, w, r, l)
    case PollReader(w, aborted) =>
      var (r, l) := PollRead(s.lock, w, true, w in s.canceled, aborted);
      ReadPolled(s, w, r, l)
    case DropReader(w) => s.(lock := DropRead(s.lock, w), readers := s.readers - {w}, canceled := s.canceled - {w})
    case Cancel(w) => s.(canceled := s.canceled + {w})
    case DropWriteGuard => s.(lock := DropWriteRef(s.lock), writeGuards := s.writeGuards - 1)
    case DropReadGuard => s.(lock := DropReadRef(s.lock), readGuards := s.readGuards - 1)
    case Upgrade(w, aborted) =>
      // First the guard goes, with the wakes that this causes; then the writer competes like any other.
      var u := s.(lock := DropReadRef(s.lock), readGuards := s.readGuards - 1);
      var (r, l) := PollWrite(u.lock, w, false, false, aborted);
      WritePolled(u, w, r, l)
  }

  function ReadQueue(s: System): set<Id> {
    Elems(s.lock.readEvent.queue)
  }

  function WriteQueue(s: System): set<Id> {
    Elems(s.lock.writeEvent.queue)
  }

  // Live and linked.
  function ParkedReaders(s: System): set<Id> {
    s.readers * ReadQueue(s)
  }

  function ParkedWriters(s: System): set<Id> {
    s.writers * WriteQueue(s)
  }

  // Live and no longer linked: woken, and not polled since.
  function WokenReaders(s: System): set<Id> {
    s.readers - ReadQueue(s)
  }

  function WokenWriters(s: System): set<Id> {
    s.writers - WriteQueue(s)
  }

  ghost predicate Shape(s: System) {
    && Consistent(s.lock)
    && s.readGuards == s.lock.readers && s.writeGuards == (if s.lock.writer then 1 else 0)
    && NoDup(s.lock.readEvent.queue) && NoDup(s.lock.writeEvent.queue)
    && WriteQueue(s) <= s.writers
    && (s.lock.writer ==> ReadQueue(s) <= s.readers)
    && s.readers !! s.writers && s.canceled <= s.readers + s.writers
  }

  ghost predicate Inv(s: System) {
    && Shape(s)
    // If the lock is free and anybody is parked, a writer is on its way.
    && (Free(s.lock) && (ParkedReaders(s) != {} || ParkedWriters(s) != {}) ==> WokenWriters(s) != {})
    // If only readers hold the lock and a reader is parked, a writer is pending; taking the
    // lock or giving up, it wakes the readers.
    && (!s.lock.writer && ParkedReaders(s) != {} ==> s.writers != {})
  }

  lemma AcquireWriteKeepsInv(s: System, w: Id)
    requires Inv(s) && Free(s.lock) && w !in s.readers
    ensures Inv(WritePolled(s, w, Ready, AcquireWrite(s.lock)))
  {
    hide NoDup, Elems, Remove;
    EmptyQueue();
  }

  lemma AcquireReadKeepsInv(s: System, w: Id)
    requires Inv(s) && !s.lock.writer && w !in s.writers
    ensures Inv(ReadPolled(s, w, Ready, AcquireRead(s.lock)))
  {
    hide NoDup, Elems, Remove;
    EmptyQueue();
    var t := ReadPolled(s, w, Ready, AcquireRead(s.lock));
    assert ParkedReaders(t) <= ParkedReaders(s);
  }

  // A writer that gives up passes on whatever wake it had received.
  lemma RetireWriterKeepsInv(s: System, t: System, w: Id)
    requires Inv(s) && w !in s.readers
    requires t == s.(lock := DropWrite(s.lock, w), writers := s.writers - {w}, canceled := s.canceled - {w})
    ensures Inv(t)
  {
    hide NoDup, Elems, Remove;
    RemoveElems(s.lock.writeEvent.queue, w);
    EmptyQueue();
  }

  lemma WakeWritersKeepsInv(s: System)
    requires Inv(s)
    ensures Inv(s.(lock := s.lock.(writeEvent := WakeAll(s.lock.writeEvent))))
  {
    hide NoDup, Elems, Remove;
    EmptyQueue();
    var t := s.(lock := s.lock.(writeEvent := WakeAll(s.lock.writeEvent)));
    assert WokenWriters(t) == s.writers;
  }

  lemma WakeReadersKeepsInv(s: System)
    requires Inv(s)
    ensures Inv(s.(lock := s.lock.(readEvent := WakeAll(s.lock.readEvent))))
    ensures Inv(s.(lock := WakeReaders(s.lock)))
  {
    hide NoDup, Elems, Remove;
    EmptyQueue();
  }

  lemma RegisterWriterKeepsInv(s: System, t: System, w: Id)
    requires Inv(s) && !Free(s.lock) && w !in s.readers
    requires t == s.(lock := s.lock.(writeEvent := Register(s.lock.writeEvent, w)), writers := s.writers + {w})
    ensures Inv(t)
  {
    hide NoDup, Elems, Remove;
    if w !in s.lock.writeEvent.queue {
      AppendElems(s.lock.writeEvent.queue, w);
    }
  }

  lemma RegisterReaderKeepsInv(s: System, t: System, w: Id)
    requires Inv(s) && s.lock.writer && w !in s.writers
    requires t == s.(lock := s.lock.(readEvent := Register(s.lock.readEvent, w)), readers := s.readers + {w})
    ensures Inv(t)
  {
    hide NoDup, Elems, Remove;
    if w !in s.lock.readEvent.queue {
      AppendElems(s.lock.readEvent.queue, w);
    }
  }

  lemma RetireReaderKeepsInv(s: System, t: System, w: Id)
    requires Inv(s) && w !in s.writers
    requires t == s.(lock := DropRead(s.lock, w), readers := s.readers - {w}, canceled := s.canceled - {w})
    ensures Inv(t)
  {
    hide NoDup, Elems, Remove;
    RemoveElems(s.lock.readEvent.queue, w);
    EmptyQueue();
  }

  lemma PollWriteKeepsInv(s: System, w: Id, registered: bool, canceled: bool, aborted: bool)
    requires Inv(s) && (if registered then w in s.writers && (canceled <==> w in s.canceled) else New(s, w))
    ensures var (r, l) := PollWrite(s.lock, w, registered, canceled, aborted);
      Inv(WritePolled(s, w, r, l))
  {
    hide NoDup, Elems, Remove, Inv;
    InvFacts(s);
    var (r, l) := PollWrite(s.lock, w, registered, canceled, aborted);
    var t := WritePolled(s, w, r, l);
    match r {
      case Ready => AcquireWriteKeepsInv(s, w);
      case Pending => RegisterWriterKeepsInv(s, t, w);
      case Canceled => RetireWriterKeepsInv(s, t, w);
      case Panicked =>
        var u := s.(lock := s.lock.(writeEvent := WakeAll(s.lock.writeEvent)));
        WakeWritersKeepsInv(s);
        if registered {
          RetireWriterKeepsInv(u, t, w);
        } else {
          WakeReadersKeepsInv(u);
          assert t.writers == u.writers && t.canceled == u.canceled;
        }
    }
  }

  lemma PollReadKeepsInv(s: System, w: Id, registered: bool, canceled: bool, aborted: bool)
    requires Inv(s) && (if registered then w in s.readers && (canceled <==> w in s.canceled) else New(s, w))
    ensures var (r, l) := PollRead(s.lock, w, registered, canceled, aborted);
      Inv(ReadPolled(s, w, r, l))
  {
    hide NoDup, Elems, Remove, Inv;
    InvFacts(s);
    var (r, l) := PollRead(s.lock, w, registered, canceled, aborted);
    var t := ReadPolled(s, w, r, l);
    match r {
      case Ready => AcquireReadKeepsInv(s, w);
      case Pending => RegisterReaderKeepsInv(s, t, w);
      case Canceled => RetireReaderKeepsInv(s, t, w);
      case Panicked =>
        var u := s.(lock := s.lock.(readEvent := WakeAll(s.lock.readEvent)));
        WakeReadersKeepsInv(s);
        if registered {
          RetireReaderKeepsInv(u, t, w);
        } else {
          assert t.readers == u.readers && t.canceled == u.canceled;
        }
    }
  }

  lemma InvFacts(s: System)
    requires Inv(s)
    ensures Consistent(s.lock) && s.readers !! s.writers && s.canceled <= s.readers + s.writers
  {
  }

  lemma DropWriteGuardKeepsInv(s: System)
    requires Inv(s) && s.writeGuards > 0
    ensures Inv(Next(s, DropWriteGuard))
  {
    hide NoDup, Elems, Remove;
    EmptyQueue();
    var q := s.lock.writeEvent.queue;
    if q != [] {
      TailElems(q);
      var t := Next(s, DropWriteGuard);
      assert t.lock.readEvent.queue == s.lock.readEvent.queue;
      assert q[0] in WokenWriters(t);
    }
  }

  lemma DropReadGuardKeepsInv(s: System)
    requires Inv(s) && s.readGuards > 0
    ensures Inv(Next(s, DropReadGuard))
  {
    hide NoDup, Elems, Remove;
    EmptyQueue();
    var t := Next(s, DropReadGuard);
    if s.lock.readers == 1 {
      assert WokenWriters(t) == s.writers;
    }
  }

  lemma UpgradeKeepsInv(s: System, w: Id, aborted: bool)
    requires Inv(s) && Enabled(s, Upgrade(w, aborted))
    ensures Inv(Next(s, Upgrade(w, aborted)))
  {
    hide NoDup, Elems, Remove, Inv, PollWrite;
    InvFacts(s);
    DropReadGuardKeepsInv(s);
    PollWriteKeepsInv(Next(s, DropReadGuard), w, false, false, aborted);
  }

  lemma StepKeepsInv(s: System, a: Action)
    requires Inv(s) && Enabled(s, a)
    ensures Inv(Next(s, a))
  {
    hide NoDup, Elems, Remove, PollWrite, PollRead;
    match a {
      case StartWrite(w, aborted) => PollWriteKeepsInv(s, w, false, false, aborted);
      case PollWriter(w, aborted) => PollWriteKeepsInv(s, w, true, w in s.canceled, aborted);
      case DropWriter(w) => RetireWriterKeepsInv(s, Next(s, a), w);
      case StartRead(w, aborted) => PollReadKeepsInv(s, w, false, false, aborted);
      case PollReader(w, aborted) => PollReadKeepsInv(s, w, true, w in s.canceled, aborted);
      case DropReader(w) => RetireReaderKeepsInv(s, Next(s, a), w);
      case Cancel(w) =>
      case DropWriteGuard => DropWriteGuardKeepsInv(s);
      case DropReadGuard => DropReadGuardKeepsInv(s);
      case Upgrade(w, aborted) => UpgradeKeepsInv(s, w, aborted);
    }
  }

  // The state after any sequence of actions. An action that is not enabled changes nothing.
  ghost function Run(actions: seq<Action>): (s: System)
    ensures Inv(s)
    decreases |actions|
  {
    if actions == [] then
      EmptyQueue();
      INITIAL
    else
      var k := |actions| - 1;
      var s := Run(actions[..k]);
      if Enabled(s, actions[k]) then
        StepKeepsInv(s, actions[k]);
        Next(s, actions[k])
      else s
  }

  // The guards agree with the lock and never conflict.
  lemma GuardsExclude(actions: seq<Action>)
    ensures var s := Run(actions);
      && s.writeGuards <= 1 && (s.writeGuards == 1 ==> s.readGuards == 0)
      && s.readGuards == s.lock.readers && (s.writeGuards == 1 <==> s.lock.writer)
  {
    hide NoDup, Elems;
    var s := Run(actions);
    assert Inv(s);
  }

  // No wake is lost. A reader may stay parked beside other readers, but only while a writer is
  // pending; and once every woken future has been polled, a free lock has no pending future.
  lemma NoLostWake(actions: seq<Action>)
    ensures var s := Run(actions);
      && (Free(s.lock) && (ParkedReaders(s) != {} || ParkedWriters(s) != {}) ==> WokenWriters(s) != {})
      && (!s.lock.writer && ParkedReaders(s) != {} ==> s.writers != {})
      && (Free(s.lock) && WokenWriters(s) == {} && WokenReaders(s) == {} ==> s.readers == {} && s.writers == {})
  {
    hide NoDup, Elems;
    var s := Run(actions);
    assert s.writers == ParkedWriters(s) + WokenWriters(s);
    assert s.readers == ParkedReaders(s) + WokenReaders(s);
  }

  // The pending writer of `NoLostWake` wakes every reader when it leaves: it takes the lock,
  // is dropped, is canceled or panics.
  lemma PendingWriterWakesReaders(s: System, w: Id, aborted: bool)
    requires Inv(s) && w in s.writers && !s.lock.writer
    ensures ParkedReaders(Next(s, DropWriter(w))) == {}
    ensures var t := Next(s, PollWriter(w, aborted));
      w !in t.writers ==> ParkedReaders(t) == {}
  {
    hide NoDup, Elems, Remove;
    EmptyQueue();
  }

  // What a poll answers.

  function Waiting(s: System): set<Id> {
    s.readers + s.writers
  }

  // A cancellation of `w`, after the first `k` actions, since when it has been pending.
  ghost predicate CanceledAt(actions: seq<Action>, w: Id, k: nat) {
    && k < |actions| && actions[k] == Cancel(w)
    && forall j :: k <= j <= |actions| ==> w in Waiting(Run(actions[..j]))
  }

  ghost predicate CanceledSince(actions: seq<Action>, w: Id) {
    exists k :: CanceledAt(actions, w, k)
  }

  // Canceled are exactly the pending futures that were canceled since they began to wait.
  lemma CanceledIff(actions: seq<Action>, w: Id)
    ensures w in Run(actions).canceled <==> CanceledSince(actions, w)
  {
    hide Run, Inv, Next, Enabled;
    var flag := (i: nat) => i <= |actions| && w in Run(actions[..i]).canceled;
    var ask := (i: nat) => i < |actions| && actions[i] == Cancel(w);
    var held := (i: nat) => i <= |actions| && w in Waiting(Run(actions[..i]));
    NothingCanceled(w);
    forall i: nat | i < |actions|
      ensures LatchStep(flag, ask, held, i)
    {
      RunLast(actions[..i + 1]);
      assert actions[..i + 1][..i] == actions[..i];
      CanceledStep(Run(actions[..i]), actions[i], w);
    }
    assert actions[..0] == [] && actions[..|actions|] == actions;
    LatchIff(flag, ask, held, |actions|);
    if k: nat :| SetAndHeld(ask, held, |actions|, k) {
      forall j | k <= j <= |actions|
        ensures w in Waiting(Run(actions[..j]))
      {
        assert held(j);
      }
      assert CanceledAt(actions, w, k);
    }
    if k: nat :| CanceledAt(actions, w, k) {
      assert SetAndHeld(ask, held, |actions|, k);
    }
  }

  lemma NothingCanceled(w: Id)
    ensures w !in Run([]).canceled
  {
  }

  lemma RunLast(actions: seq<Action>)
    requires actions != []
    ensures var s := Run(actions[..|actions| - 1]);
      var a := actions[|actions| - 1];
      Run(actions) == if Enabled(s, a) then Next(s, a) else s
  {
  }

  lemma CanceledStep(s: System, a: Action, w: Id)
    requires Inv(s)
    ensures var t := if Enabled(s, a) then Next(s, a) else s;
      && (w in s.canceled ==> w in Waiting(s)) && (w in t.canceled ==> w in Waiting(t))
      && (w in t.canceled <==> w in Waiting(t) && (w in s.canceled || (a == Cancel(w) && w in Waiting(s))))
  {
    hide NoDup, Elems, Remove, PollWait, Retire;
    if Enabled(s, a) {
      StepKeepsInv(s, a);
    }
  }

  // The answer to a poll of a reader or a writer.
  function Answer(s: System, a: Action): Outcome
    requires Inv(s) && Enabled(s, a) && IsPoll(a)
  {
    match a
    case StartWrite(w, aborted) => PollWrite(s.lock, w, false, false, aborted).0
    case PollWriter(w, aborted) => PollWrite(s.lock, w, true, w in s.canceled, aborted).0
    case StartRead(w, aborted) => PollRead(s.lock, w, false, false, aborted).0
    case PollReader(w, aborted) => PollRead(s.lock, w, true, w in s.canceled, aborted).0
    case Upgrade(w, aborted) => PollWrite(DropReadRef(s.lock), w, false, false, aborted).0
  }

  predicate IsPoll(a: Action) {
    a.StartWrite? || a.PollWriter? || a.StartRead? || a.PollReader? || a.Upgrade?
  }

  // Whether no guard stands in the way: for a reader that of a writer, for a writer any but the
  // one that an upgrade gives up.
  predicate CanHold(s: System, a: Action) {
    if a.StartRead? || a.PollReader? then s.writeGuards == 0
    else s.writeGuards == 0 && s.readGuards == if a.Upgrade? then 1 else 0
  }

  // Over every run a poll answers `Canceled` exactly if its wait was canceled since it began.
  // Without that it ends in a guard if the lock can be held, and stays pending if not; an aborted
  // task panics, except in the first poll of a lock that it can take.
  lemma PollAnswers(actions: seq<Action>, a: Action)
    requires IsPoll(a) && Enabled(Run(actions), a)
    ensures var s := Run(actions);
      var t := Next(s, a);
      var first := !a.PollReader? && !a.PollWriter?;
      var canceled := !first && CanceledSince(actions, a.w);
      var lost := if a.Upgrade? then 1 else 0;
      && Answer(s, a) == (if canceled then Canceled else if CanHold(s, a) && (first || !a.aborted) then Ready
                          else if a.aborted then Panicked else Pending)
      && (a.StartRead? || a.PollReader? ==>
            t.writeGuards == s.writeGuards && t.readGuards == s.readGuards + if Answer(s, a) == Ready then 1 else 0)
      && (!a.StartRead? && !a.PollReader? ==>
            && t.readGuards == s.readGuards - lost
            && t.writeGuards == s.writeGuards + if Answer(s, a) == Ready then 1 else 0)
      && (a.w in Waiting(t) <==> Answer(s, a) == Pending)
  {
    hide NoDup, Elems, Remove, Run, Retire, CanceledSince;
    var s := Run(actions);
    CanceledIff(actions, a.w);
    assert Inv(s);
  }

  // A writer that lets go wakes the first waiting writer and nobody else, or all readers if no writer
  // waits; the last reader that lets go wakes all writers, and the others nobody.
  lemma ReleaseWakes(s: System)
    requires Inv(s)
    ensures s.writeGuards > 0 ==>
      var t := Next(s, DropWriteGuard);
      if s.lock.writeEvent.queue == [] then t.lock.readEvent.queue == [] && t.lock.writeEvent.queue == []
      else t.lock.writeEvent.queue == s.lock.writeEvent.queue[1..] && t.lock.readEvent.queue == s.lock.readEvent.queue
    ensures s.readGuards > 0 ==>
      var t := Next(s, DropReadGuard);
      && t.lock.readEvent.queue == s.lock.readEvent.queue
      && t.lock.writeEvent.queue == if s.readGuards == 1 then [] else s.lock.writeEvent.queue
  {
    hide NoDup, Elems, Remove;
    assert s.lock.readEvent.queue[0..] == s.lock.readEvent.queue;
  }

  // No step lets a waiter overtake another of its kind.
  lemma FirstComeFirstServed(s: System, a: Action)
    requires Inv(s) && Enabled(s, a)
    ensures var w := if a.DropWriteGuard? || a.DropReadGuard? then 0 else a.w;
      && InOrder(s.lock.readEvent.queue, Next(s, a).lock.readEvent.queue, w, w)
      && InOrder(s.lock.writeEvent.queue, Next(s, a).lock.writeEvent.queue, w, w)
  {
    hide Elems, Remove, InOrder;
    var w := if a.DropWriteGuard? || a.DropReadGuard? then 0 else a.w;
    OrderFacts(s.lock.readEvent.queue, w, w);
    OrderFacts(s.lock.writeEvent.queue, w, w);
  }

  function Woken(s: System): set<Id> {
    WokenReaders(s) + WokenWriters(s)
  }

  function PollAction(s: System, w: Id): Action {
    if w in s.writers then PollWriter(w, false) else PollReader(w, false)
  }

  // Polls of woken futures alone come to an end, and then the lock is held or nobody waits.
  ghost function Settle(s: System, pick: System -> Id): (t: System)
    requires Inv(s)
    requires forall u: System :: Woken(u) != {} ==> pick(u) in Woken(u)
    ensures Inv(t) && Woken(t) == {}
    ensures t.readGuards + t.writeGuards > 0 || (t.readers == {} && t.writers == {})
    decreases |s.readers| + |s.writers|, |WokenReaders(s)| + |WokenWriters(s)|
  {
    if Woken(s) == {} then
      assert s.writers == ParkedWriters(s) + WokenWriters(s);
      assert s.readers == ParkedReaders(s) + WokenReaders(s);
      s
    else
      var w := pick(s);
      var a := PollAction(s, w);
      StepKeepsInv(s, a);
      PollMakesProgress(s, w);
      Settle(Next(s, a), pick)
  }

  lemma PollMakesProgress(s: System, w: Id)
    requires Inv(s) && w in Woken(s)
    ensures Enabled(s, PollAction(s, w))
    ensures var t := Next(s, PollAction(s, w));
      var (n, m) := (|s.readers| + |s.writers|, |t.readers| + |t.writers|);
      m < n || (m == n && |WokenReaders(t)| + |WokenWriters(t)| < |WokenReaders(s)| + |WokenWriters(s)|)
  {
    hide NoDup, Elems, Remove;
    if w in s.writers {
      WriterMakesProgress(s, w);
    } else {
      ReaderMakesProgress(s, w);
    }
  }

  lemma WriterMakesProgress(s: System, w: Id)
    requires Inv(s) && w in WokenWriters(s)
    ensures var t := Next(s, PollWriter(w, false));
      && t.readers == s.readers
      && (|t.writers| < |s.writers|
          || (t.writers == s.writers && |WokenWriters(t)| < |WokenWriters(s)| && WokenReaders(t) == WokenReaders(s)))
  {
    hide NoDup, Elems, Remove;
    var t := Next(s, PollWriter(w, false));
    if w in t.writers {
      assert t.writers == s.writers;
      NotLinked(s.lock.writeEvent.queue, w);
      AppendElems(s.lock.writeEvent.queue, w);
      JoinQueue(s.writers, WriteQueue(s), w);
    } else {
      assert t.writers == s.writers - {w};
    }
  }

  lemma ReaderMakesProgress(s: System, w: Id)
    requires Inv(s) && w in WokenReaders(s)
    ensures var t := Next(s, PollReader(w, false));
      && t.writers == s.writers
      && (|t.readers| < |s.readers|
          || (t.readers == s.readers && |WokenReaders(t)| < |WokenReaders(s)| && WokenWriters(t) == WokenWriters(s)))
  {
    hide NoDup, Elems, Remove;
    var t := Next(s, PollReader(w, false));
    if w in t.readers {
      assert t.readers == s.readers;
      NotLinked(s.lock.readEvent.queue, w);
      AppendElems(s.lock.readEvent.queue, w);
      JoinQueue(s.readers, ReadQueue(s), w);
    } else {
      assert t.readers == s.readers - {w};
    }
  }
}

module AsyncReaderWriterLocks {
  import opened WaitSpec
  import opened AsyncEvents
  import Spec = RwLockSpec

  class AsyncReaderWriterLock {
    var readers: nat
    var writer: bool
    const readEvent: AsyncEvent
    const writeEvent: AsyncEvent

    function Value(): Spec.RwLock
      reads this, readEvent, writeEvent
    {
      Spec.RwLock(readers, writer, readEvent.Value(), writeEvent.Value())
    }

    ghost predicate Valid()
      reads this, readEvent, writeEvent
    {
      readEvent != writeEvent && Spec.Consistent(Value())
    }

    constructor ()
      ensures Valid() && Value() == Spec.NEW && fresh(readEvent) && fresh(writeEvent)
    {
      var r := new AsyncEvent.WithState(false);
      r.Set();
      var w := new AsyncEvent.WithState(false);
      w.Set();
      readers, writer, readEvent, writeEvent := 0, false, r, w;
    }

    // The scope guard of `lock_write`.
    method WakeReadersOnCancel()
      requires readEvent != writeEvent
      modifies readEvent
      ensures Value() == Spec.WakeReaders(old(Value()))
    {
      if !writer {
        readEvent.Set();
      }
    }

    // One poll of `lock_write`, whose wait is `wait`.
    method PollWrite(wait: WaitFuture, aborted: bool) returns (r: Outcome)
      requires Valid() && wait.event == writeEvent && wait.expected && wait.source
      modifies this, readEvent, writeEvent, wait
      ensures Valid()
      ensures (r, Value()) == Spec.PollWrite(old(Value()), wait.id, old(wait.waitData), old(wait.canceled), aborted)
      ensures r == Pending ==> wait.source && wait.waitData
    {
      hide Remove;
      var waiting := wait.waitData || readers > 0 || writer;
      while waiting
        invariant Valid() && Value() == old(Value())
        invariant waiting ==>
          && wait.source && wait.waitData == old(wait.waitData) && wait.canceled == old(wait.canceled)
          && (wait.waitData || readers > 0 || writer)
        invariant !waiting ==> readers == 0 && !writer
        invariant !waiting && old(wait.waitData) ==> !old(wait.canceled) && !aborted
        decreases waiting
      {
        r := wait.Poll(aborted);
        if r == Pending {
          return;
        }
        wait.Drop();
        if r != Ready {
          WakeReadersOnCancel();
          return;
        }
        waiting := readers > 0 || writer;
      }
      writer := true;
      writeEvent.Reset();
      readEvent.Reset();
      assert !writer || readers == 0;
      r := Ready;
      WakeReadersOnCancel();
    }

    // Drops a pending `lock_write`: the wait first, then the scope guard.
    method DropWrite(wait: WaitFuture)
      requires Valid() && wait.event == writeEvent && wait.expected && wait.source && wait.waitData
      modifies readEvent, writeEvent, wait
      ensures Valid() && Value() == Spec.DropWrite(old(Value()), wait.id)
    {
      hide Remove;
      wait.Drop();
      WakeReadersOnCancel();
    }

    // One poll of `lock_read`, whose wait is `wait`.
    method PollRead(wait: WaitFuture, aborted: bool) returns (r: Outcome)
      requires Valid() && wait.event == readEvent && wait.expected && wait.source
      modifies this, readEvent, writeEvent, wait
      ensures Valid()
      ensures (r, Value()) == Spec.PollRead(old(Value()), wait.id, old(wait.waitData), old(wait.canceled), aborted)
      ensures r == Pending ==> wait.source && wait.waitData
    {
      hide Remove;
      var waiting := wait.waitData || writer;
      while waiting
        invariant Valid() && Value() == old(Value())
        invariant waiting ==>
          && wait.source && wait.waitData == old(wait.waitData) && wait.canceled == old(wait.canceled)
          && (wait.waitData || writer)
        invariant !waiting ==> !writer
        invariant !waiting && old(wait.waitData) ==> !old(wait.canceled) && !aborted
        decreases waiting
      {
        r := wait.Poll(aborted);
        if r == Pending {
          return;
        }
        wait.Drop();
        if r != Ready {
          return;
        }
        waiting := writer;
      }
      readers := readers + 1;
      writeEvent.Reset();
      assert !writer || readers == 0;
      r := Ready;
    }

    // Drops a pending `lock_read`.
    method DropRead(wait: WaitFuture)
      requires Valid() && wait.event == readEvent && wait.expected && wait.source && wait.waitData
      modifies readEvent, wait
      ensures Valid() && Value() == Spec.DropRead(old(Value()), wait.id)
    {
      hide Remove;
      wait.Drop();
    }

    method DropWriteRef()
      requires Valid() && writer
      modifies this, readEvent, writeEvent
      ensures Valid() && Value() == Spec.DropWriteRef(old(Value()))
    {
      writer := false;
      if writeEvent.AnyWaiting() {
        writeEvent.SetWakeOne();
        readEvent.SetWakeN(0);
      } else {
        writeEvent.Set();
        readEvent.Set();
      }
      assert !writer || readers == 0;
    }

    method DropReadRef()
      requires Valid() && readers > 0
      modifies this, writeEvent
      ensures Valid() && Value() == Spec.DropReadRef(old(Value()))
    {
      readers := readers - 1;
      if readers == 0 {
        writeEvent.Set();
      }
      assert !writer || readers == 0;
    }
  }
}
