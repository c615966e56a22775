// The virtual clock and the sleeps that wait for it. Instants are integers.

module VirtualClockSpec {
  import opened Bytes

  type Waker = nat
  type SleepId = nat

  datatype Timer = Timer(id: nat, deadline: int, waker: Waker)

  // The order of the timer heap: by deadline, and by registration where deadlines agree.
  predicate Precedes(a: Timer, b: Timer) {
    a.deadline < b.deadline || (a.deadline == b.deadline && a.id < b.id)
  }

  // The heap as the sequence in which it gives up its timers.
  ghost predicate Sorted(timers: seq<Timer>) {
    forall i, j :: 0 <= i < j < |timers| ==> Precedes(timers[i], timers[j])
  }

  // `BinaryHeap::push`.
  function Push(timers: seq<Timer>, t: Timer): seq<Timer> {
    if timers == [] || Precedes(t, timers[0]) then [t] + timers else [timers[0]] + Push(timers[1..], t)
  }

  // `retain` of the timers with another id.
  function Without(timers: seq<Timer>, id: nat): seq<Timer> {
    if timers == [] then []
    else if timers[0].id == id then Without(timers[1..], id)
    else [timers[0]] + Without(timers[1..], id)
  }

  // How many timers are due at `now`.
  function Due(timers: seq<Timer>, now: int): (n: nat)
    ensures n <= |timers|
  {
    if timers == [] || timers[0].deadline > now then 0 else 1 + Due(timers[1..], now)
  }

  datatype Clock = Clock(current: int, timers: seq<Timer>, nextId: nat)

  function Register(c: Clock, deadline: int, waker: Waker): Clock {
    Clock(c.current, Push(c.timers, Timer(c.nextId, deadline, waker)), c.nextId + 1)
  }

  function CancelTimer(c: Clock, id: nat): Clock {
    c.(timers := Without(c.timers, id))
  }

  function Later(a: int, b: int): int {
    if a < b then b else a
  }

  // The clock after `advance_to`, and the wakers that it returns.
  function AdvanceTo(c: Clock, target: int): (Clock, seq<Timer>) {
    var now := Later(c.current, target);
    var n := Due(c.timers, now);
    (Clock(now, c.timers[n..], c.nextId), c.timers[..n])
  }

  // `VirtualSleepFuture`.
  datatype Sleep = Sleep(deadline: int, timer: Option<nat>, waker: Option<Waker>, completed: bool, yielded: bool)

  function NewSleep(deadline: int): Sleep {
    Sleep(deadline, None, None, false, false)
  }

  // One poll: whether it is ready, whether it wakes its own task, the sleep and the clock.
  datatype Polled = Polled(ready: bool, woke: bool, sleep: Sleep, clock: Clock)

  // A poll of a sleep with the waker `w`. A sleep that is due yields once before it is ready.
  function PollSleep(f: Sleep, c: Clock, w: Waker): Polled {
    if c.current >= f.deadline then
      if !f.yielded then Polled(false, true, f.(yielded := true), c)
      else Polled(true, false, f.(completed := true, timer := None), c)
    else if f.timer.Some? && f.waker == Some(w) then Polled(false, false, f, c)
    else
      var d := if f.timer.Some? then CancelTimer(c, f.timer.value) else c;
      Polled(false, false, f.(timer := Some(d.nextId), waker := Some(w)), Register(d, f.deadline, w))
  }

  // `cancel` and `drop` both take the timer out.
  function StopSleep(f: Sleep, c: Clock): Clock {
    if f.timer.Some? then CancelTimer(c, f.timer.value) else c
  }

  // Facts about the heap.

  lemma {:induction false} PushSorted(timers: seq<Timer>, t: Timer)
    requires Sorted(timers) && forall i :: 0 <= i < |timers| ==> timers[i].id != t.id
    ensures Sorted(Push(timers, t))
    ensures forall x :: x in Push(timers, t) <==> x == t || x in timers
  {
    if timers != [] && !Precedes(t, timers[0]) {
      var rest := timers[1..];
      PushSorted(rest, t);
      var p := Push(rest, t);
      assert timers == [timers[0]] + rest;
      forall j | 0 <= j < |p|
        ensures Precedes(timers[0], p[j])
      {
        assert p[j] in p;
        if p[j] != t {
          var k :| 0 <= k < |rest| && rest[k] == p[j];
          assert timers[k + 1] == p[j];
        }
      }
      SortedCons(timers[0], p);
    } else if timers != [] {
      forall j | 0 <= j < |timers|
        ensures Precedes(t, timers[j])
      {
        assert j > 0 ==> Precedes(timers[0], timers[j]);
      }
      SortedCons(t, timers);
    }
  }

  lemma SortedCons(t: Timer, timers: seq<Timer>)
    requires Sorted(timers) && forall j :: 0 <= j < |timers| ==> Precedes(t, timers[j])
    ensures Sorted([t] + timers)
  {
    var p := [t] + timers;
    forall i, j | 0 <= i < j < |p|
      ensures Precedes(p[i], p[j])
    {
      assert p[j] == timers[j - 1];
      if i > 0 {
        assert p[i] == timers[i - 1];
      }
    }
  }

  lemma {:induction false} WithoutSorted(timers: seq<Timer>, id: nat)
    requires Sorted(timers)
    ensures Sorted(Without(timers, id))
    ensures forall x :: x in Without(timers, id) <==> x in timers && x.id != id
  {
    if timers != [] {
      var rest := timers[1..];
      assert timers == [timers[0]] + rest;
      WithoutSorted(rest, id);
      if timers[0].id != id {
        var p := Without(rest, id);
        forall j | 0 <= j < |p|
          ensures Precedes(timers[0], p[j])
        {
          assert p[j] in p;
          var k :| 0 <= k < |rest| && rest[k] == p[j];
          assert timers[k + 1] == p[j];
        }
        SortedCons(timers[0], p);
      }
    }
  }

  // Advancing returns exactly the timers that are due, in the order of the heap.
  lemma {:induction false} DueIsPrefix(timers: seq<Timer>, now: int)
    requires Sorted(timers)
    ensures var n := Due(timers, now);
      && (forall i :: 0 <= i < n ==> timers[i].deadline <= now)
      && (forall i :: n <= i < |timers| ==> timers[i].deadline > now)
  {
    if timers != [] {
      var rest := timers[1..];
      if timers[0].deadline <= now {
        DueIsPrefix(rest, now);
        assert forall i :: 0 < i < |timers| ==> timers[i] == rest[i - 1];
      } else {
        assert forall i :: 0 < i < |timers| ==> Precedes(timers[0], timers[i]);
      }
    }
  }
}

module VirtualClockSystem {
  import opened Bytes
  import opened Latches
  import opened VirtualClockSpec

  // The latest poll of a sleep: its waker, and how many wakers had been called before it.
  datatype LastPoll = LastPoll(waker: Waker, mark: nat)

  // `wakes` lists all wakers called so far, by the clock and by polls that yield.
  datatype System = System(
    clock: Clock, sleeps: map<SleepId, Sleep>, wakes: seq<Waker>, last: map<SleepId, LastPoll>)

  datatype Action =
    | New(id: SleepId, deadline: int)
    | Poll(id: SleepId, waker: Waker)
    | Cancel(id: SleepId)
    | Drop(id: SleepId)
    | Advance(target: int)

  function Initial(start: int): System {
    System(Clock(start, [], 1), map[], [], map[])
  }

  predicate Enabled(s: System, a: Action) {
    match a
    case New(id, _) => id !in s.sleeps
    case Poll(id, _) => id in s.sleeps && !s.sleeps[id].completed
    case Cancel(id) => id in s.sleeps
    case Drop(id) => id in s.sleeps
    case Advance(_) => true
  }

  function Next(s: System, a: Action): System
    requires Enabled(s, a)
  {
    match a
    case New(id, deadline) => s.(sleeps := s.sleeps[id := NewSleep(deadline)], last := s.last - {id})
    case Poll(id, w) =>
      var r := PollSleep(s.sleeps[id], s.clock, w);
      System(r.clock, s.sleeps[id := r.sleep], if r.woke then s.wakes + [w] else s.wakes,
             s.last[id := LastPoll(w, |s.wakes|)])
    case Cancel(id) =>
      s.(clock := StopSleep(s.sleeps[id], s.clock),
         sleeps := s.sleeps[id := s.sleeps[id].(timer := None, completed := true)])
    case Drop(id) => s.(clock := StopSleep(s.sleeps[id], s.clock), sleeps := s.sleeps - {id})
    case Advance(target) =>
      var (d, fired) := AdvanceTo(s.clock, target);
      s.(clock := d, wakes := s.wakes + Wakers(fired))
  }

  function Wakers(timers: seq<Timer>): (w: seq<Waker>)
    ensures |w| == |timers| && forall i :: 0 <= i < |timers| ==> w[i] == timers[i].waker
  {
    seq(|timers|, i requires 0 <= i < |timers| => timers[i].waker)
  }

  // The timer that a sleep has registered.
  predicate Owns(f: Sleep, t: Timer) {
    f.timer == Some(t.id) && f.deadline == t.deadline && f.waker == Some(t.waker) && !f.completed
  }

  ghost predicate ClockOk(c: Clock) {
    && Sorted(c.timers)
    && (forall t :: t in c.timers ==> t.id < c.nextId)
    && (forall t :: t in c.timers ==> t.deadline > c.current)
    && (forall t, u :: t in c.timers && u in c.timers && t.id == u.id ==> t == u)
  }

  ghost predicate SleepOk(c: Clock, f: Sleep) {
    && (f.timer.Some? ==> f.timer.value < c.nextId && f.waker.Some? && !f.completed)
    // Not yet due: the timer is in the heap, with the latest waker.
    && (f.timer.Some? && f.deadline > c.current ==> Timer(f.timer.value, f.deadline, f.waker.value) in c.timers)
    && (f.waker.Some? && !f.completed ==> f.timer.Some?)
    && (f.yielded && !f.completed ==> f.deadline <= c.current)
  }

  // No two sleeps share a timer, and every timer belongs to a sleep.
  ghost predicate OwnersOk(timers: seq<Timer>, sleeps: map<SleepId, Sleep>) {
    && (forall a, b :: a in sleeps && b in sleeps && sleeps[a].timer.Some? && sleeps[a].timer == sleeps[b].timer ==>
          a == b)
    && (forall t :: t in timers ==> exists id :: id in sleeps && Owns(sleeps[id], t))
  }

  ghost predicate TimersOk(s: System) {
    && ClockOk(s.clock)
    && (forall id :: id in s.sleeps ==> SleepOk(s.clock, s.sleeps[id]))
    && OwnersOk(s.clock.timers, s.sleeps)
  }

  // A sleep that was polled and is not complete: until it is due, its timer holds the waker of
  // the latest poll, and from then on that waker has been called since that poll.
  ghost predicate Attended(f: Sleep, last: LastPoll, now: int, wakes: seq<Waker>) {
    && last.mark <= |wakes|
    && (f.completed || if f.deadline > now then f.waker == Some(last.waker) else last.waker in wakes[last.mark..])
  }

  ghost predicate WakesOk(s: System) {
    && (forall id :: id in s.sleeps && s.sleeps[id].waker.Some? ==> id in s.last)
    && (forall id :: id in s.sleeps && id in s.last ==>
          Attended(s.sleeps[id], s.last[id], s.clock.current, s.wakes))
  }

  ghost predicate Inv(s: System) {
    TimersOk(s) && WakesOk(s)
  }

  // Removing a timer.
  lemma CancelOk(c: Clock, id: nat)
    requires ClockOk(c)
    ensures ClockOk(CancelTimer(c, id))
    ensures forall x :: x in CancelTimer(c, id).timers <==> x in c.timers && x.id != id
  {
    WithoutSorted(c.timers, id);
  }

  // Adding one.
  lemma RegisterOk(c: Clock, deadline: int, w: Waker)
    requires ClockOk(c) && deadline > c.current
    ensures ClockOk(Register(c, deadline, w))
    ensures forall x :: x in Register(c, deadline, w).timers <==> x == Timer(c.nextId, deadline, w) || x in c.timers
  {
    forall i | 0 <= i < |c.timers|
      ensures c.timers[i].id != c.nextId
    {
      assert c.timers[i] in c.timers;
    }
    PushSorted(c.timers, Timer(c.nextId, deadline, w));
  }

  lemma AdvanceOk(c: Clock, target: int)
    requires ClockOk(c)
    ensures ClockOk(AdvanceTo(c, target).0)
    ensures forall x :: x in AdvanceTo(c, target).0.timers <==> x in c.timers && x.deadline > Later(c.current, target)
  {
    hide Due, Sorted;
    DueSplits(c.timers, Later(c.current, target));
  }

  lemma DueSplits(timers: seq<Timer>, now: int)
    requires Sorted(timers)
    ensures var rest := timers[Due(timers, now)..];
      Sorted(rest) && forall x :: x in rest <==> x in timers && x.deadline > now
  {
    hide Due;
    var n := Due(timers, now);
    DueIsPrefix(timers, now);
    var rest := timers[n..];
    forall i, j | 0 <= i < j < |rest|
      ensures Precedes(rest[i], rest[j])
    {
      assert Precedes(timers[n + i], timers[n + j]);
    }
    hide Sorted;
    forall x
      ensures x in rest <==> x in timers && x.deadline > now
    {
      if x in rest {
        var i :| 0 <= i < |rest| && rest[i] == x;
        assert timers[n + i] == x;
      }
      if x in timers && x.deadline > now {
        var i :| 0 <= i < |timers| && timers[i] == x;
        assert rest[i - n] == x;
      }
    }
  }

  lemma AdvanceTimers(s: System, target: int)
    requires TimersOk(s)
    ensures TimersOk(Next(s, Advance(target)))
  {
    hide AdvanceTo, ClockOk;
    AdvanceOk(s.clock, target);
    AdvanceFrame(s.clock, target);
  }

  lemma AdvanceFrame(c: Clock, target: int)
    ensures var d := AdvanceTo(c, target).0;
      d.current == Later(c.current, target) && d.nextId == c.nextId
  {
  }

  // The sleep `id` gives up its timer and becomes `f`, or goes away.
  lemma StopHolds(s: System, id: SleepId, t: System)
    requires TimersOk(s) && id in s.sleeps
    requires t.clock == StopSleep(s.sleeps[id], s.clock)
    requires t.sleeps == s.sleeps - {id} || t.sleeps == s.sleeps[id := s.sleeps[id].(timer := None, completed := true)]
    ensures TimersOk(t)
  {
    hide ClockOk;
    var f := s.sleeps[id];
    if f.timer.Some? {
      CancelOk(s.clock, f.timer.value);
    }
    StoppedHolds(s, id, t);
  }

  lemma StoppedHolds(s: System, id: SleepId, t: System)
    requires TimersOk(s) && id in s.sleeps
    requires ClockOk(t.clock) && t.clock.current == s.clock.current && t.clock.nextId == s.clock.nextId
    requires forall x :: x in t.clock.timers <==> x in s.clock.timers && s.sleeps[id].timer != Some(x.id)
    requires t.sleeps == s.sleeps - {id} || t.sleeps == s.sleeps[id := s.sleeps[id].(timer := None, completed := true)]
    ensures TimersOk(t)
  {
    hide ClockOk;
    var f := s.sleeps[id];
    forall x | x in t.clock.timers
      ensures exists k :: k in t.sleeps && Owns(t.sleeps[k], x)
    {
      var k :| k in s.sleeps && Owns(s.sleeps[k], x);
      assert k != id && k in t.sleeps && t.sleeps[k] == s.sleeps[k];
    }
    forall k | k in t.sleeps
      ensures SleepOk(t.clock, t.sleeps[k])
    {
      assert SleepOk(s.clock, s.sleeps[k]);
      assert k != id && s.sleeps[k].timer.Some? ==> f.timer != s.sleeps[k].timer;
    }
  }

  lemma PollTimers(s: System, id: SleepId, w: Waker)
    requires TimersOk(s) && Enabled(s, Poll(id, w))
    ensures TimersOk(Next(s, Poll(id, w)))
  {
    hide ClockOk, Register, CancelTimer;
    var f := s.sleeps[id];
    if s.clock.current >= f.deadline || (f.timer.Some? && f.waker == Some(w)) {
      PollInPlace(s, id, w);
    } else {
      PollRegisters(s, id, w);
    }
  }

  lemma PollInPlace(s: System, id: SleepId, w: Waker)
    requires TimersOk(s) && Enabled(s, Poll(id, w))
    requires s.clock.current >= s.sleeps[id].deadline || (s.sleeps[id].timer.Some? && s.sleeps[id].waker == Some(w))
    ensures TimersOk(Next(s, Poll(id, w)))
  {
    hide Register, CancelTimer;
    var f := s.sleeps[id];
    var t := Next(s, Poll(id, w));
    var g := t.sleeps[id];
    assert t.clock == s.clock;
    forall x | x in t.clock.timers
      ensures exists k :: k in t.sleeps && Owns(t.sleeps[k], x)
    {
      var k :| k in s.sleeps && Owns(s.sleeps[k], x);
      assert x.deadline > s.clock.current;
      if k == id {
        assert Owns(g, x);
      } else {
        assert t.sleeps[k] == s.sleeps[k];
      }
    }
    hide ClockOk;
  }

  lemma PollRegisters(s: System, id: SleepId, w: Waker)
    requires TimersOk(s) && Enabled(s, Poll(id, w))
    requires s.clock.current < s.sleeps[id].deadline && !(s.sleeps[id].timer.Some? && s.sleeps[id].waker == Some(w))
    ensures TimersOk(Next(s, Poll(id, w)))
  {
    hide ClockOk;
    var f := s.sleeps[id];
    var d := if f.timer.Some? then CancelTimer(s.clock, f.timer.value) else s.clock;
    if f.timer.Some? {
      CancelOk(s.clock, f.timer.value);
    }
    assert d.current == s.clock.current && d.nextId == s.clock.nextId;
    assert forall x :: x in d.timers <==> x in s.clock.timers && f.timer != Some(x.id);
    RegisterOk(d, f.deadline, w);
    var t := Next(s, Poll(id, w));
    RegisteredHolds(s, id, w, t);
  }

  lemma RegisteredHolds(s: System, id: SleepId, w: Waker, t: System)
    requires TimersOk(s) && id in s.sleeps && !s.sleeps[id].completed && s.clock.current < s.sleeps[id].deadline
    requires ClockOk(t.clock) && t.clock.current == s.clock.current && t.clock.nextId == s.clock.nextId + 1
    requires forall x :: x in t.clock.timers <==>
      x == Timer(s.clock.nextId, s.sleeps[id].deadline, w) || (x in s.clock.timers && s.sleeps[id].timer != Some(x.id))
    requires t.sleeps == s.sleeps[id := s.sleeps[id].(timer := Some(s.clock.nextId), waker := Some(w))]
    ensures TimersOk(t)
  {
    hide ClockOk;
    var f, g := s.sleeps[id], t.sleeps[id];
    forall x | x in t.clock.timers
      ensures exists k :: k in t.sleeps && Owns(t.sleeps[k], x)
    {
      if x == Timer(s.clock.nextId, f.deadline, w) {
        assert Owns(t.sleeps[id], x);
      } else {
        var k :| k in s.sleeps && Owns(s.sleeps[k], x);
        assert k != id && t.sleeps[k] == s.sleeps[k];
      }
    }
    forall k | k in t.sleeps
      ensures SleepOk(t.clock, t.sleeps[k])
    {
      assert SleepOk(s.clock, s.sleeps[k]);
      if k != id && s.sleeps[k].timer.Some? {
        assert f.timer != s.sleeps[k].timer;
      }
    }
  }

  lemma TimersStep(s: System, a: Action)
    requires TimersOk(s) && Enabled(s, a)
    ensures TimersOk(Next(s, a))
  {
    hide ClockOk, AdvanceTo, PollSleep;
    match a {
      case New(id, deadline) => NewTimers(s, id, deadline);
      case Poll(id, w) => PollTimers(s, id, w);
      case Cancel(id) => StopHolds(s, id, Next(s, a));
      case Drop(id) => StopHolds(s, id, Next(s, a));
      case Advance(target) => AdvanceTimers(s, target);
    }
  }

  lemma NewTimers(s: System, id: SleepId, deadline: int)
    requires TimersOk(s) && id !in s.sleeps
    ensures TimersOk(Next(s, New(id, deadline)))
  {
    hide ClockOk;
    var t := Next(s, New(id, deadline));
    forall x | x in t.clock.timers
      ensures exists k :: k in t.sleeps && Owns(t.sleeps[k], x)
    {
      var k :| k in s.sleeps && Owns(s.sleeps[k], x);
      assert k in t.sleeps && t.sleeps[k] == s.sleeps[k];
    }
  }

  // No sleep is lost.

  lemma StillAttended(f: Sleep, last: LastPoll, now: int, wakes: seq<Waker>, more: seq<Waker>)
    requires Attended(f, last, now, wakes)
    ensures Attended(f, last, now, wakes + more)
  {
    assert (wakes + more)[last.mark..] == wakes[last.mark..] + more;
  }

  lemma PollWakes(s: System, id: SleepId, w: Waker)
    requires Inv(s) && Enabled(s, Poll(id, w))
    ensures WakesOk(Next(s, Poll(id, w)))
  {
    hide TimersOk, PollSleep;
    var t := Next(s, Poll(id, w));
    PollFacts(s.sleeps[id], s.clock, w);
    assert t.wakes == s.wakes + t.wakes[|s.wakes|..];
    assert t.clock.current == s.clock.current;
    forall k | k in t.sleeps && k in t.last
      ensures Attended(t.sleeps[k], t.last[k], t.clock.current, t.wakes)
    {
      if k != id {
        StillAttended(s.sleeps[k], s.last[k], s.clock.current, s.wakes, t.wakes[|s.wakes|..]);
      }
    }
  }

  lemma AdvanceWakes(s: System, target: int)
    requires Inv(s)
    ensures WakesOk(Next(s, Advance(target)))
  {
    hide TimersOk, AdvanceTo, OwnersOk, ClockOk;
    var t := Next(s, Advance(target));
    var fired := AdvanceTo(s.clock, target).1;
    AdvanceFrame(s.clock, target);
    forall k | k in t.sleeps && k in t.last
      ensures Attended(t.sleeps[k], t.last[k], t.clock.current, t.wakes)
    {
      StillAttended(s.sleeps[k], s.last[k], s.clock.current, s.wakes, Wakers(fired));
      var f := s.sleeps[k];
      if !f.completed && s.clock.current < f.deadline <= t.clock.current {
        FiredIsWoken(s, k, target);
      }
    }
  }

  // This very advance calls the waker of a sleep that becomes due, and so it is called after the
  // latest poll.
  lemma FiredIsWoken(s: System, id: SleepId, target: int)
    requires Inv(s) && id in s.sleeps && id in s.last && !s.sleeps[id].completed
    requires s.clock.current < s.sleeps[id].deadline <= Later(s.clock.current, target)
    ensures s.last[id].waker in Wakers(AdvanceTo(s.clock, target).1)
    ensures s.last[id].waker in Next(s, Advance(target)).wakes[s.last[id].mark..]
  {
    hide OwnersOk, AdvanceTo;
    var f := s.sleeps[id];
    assert SleepOk(s.clock, f) && Attended(f, s.last[id], s.clock.current, s.wakes);
    var timer := Timer(f.timer.value, f.deadline, f.waker.value);
    var (d, fired) := AdvanceTo(s.clock, target);
    AdvanceSplits(s.clock, target);
    AdvanceOk(s.clock, target);
    assert timer in fired;
    var i :| 0 <= i < |fired| && fired[i] == timer;
    assert Wakers(fired)[i] == f.waker.value;
    assert (s.wakes + Wakers(fired))[s.last[id].mark..][|s.wakes| - s.last[id].mark + i] == f.waker.value;
  }

  lemma AdvanceSplits(c: Clock, target: int)
    ensures AdvanceTo(c, target).1 + AdvanceTo(c, target).0.timers == c.timers
  {
  }

  lemma StepHolds(s: System, a: Action)
    requires Inv(s) && Enabled(s, a)
    ensures Inv(Next(s, a))
  {
    hide TimersOk, AdvanceTo, PollSleep;
    TimersStep(s, a);
    match a {
      case Poll(id, w) => PollWakes(s, id, w);
      case Advance(target) => AdvanceWakes(s, target);
      case New(_, _) =>
      case Cancel(_) =>
      case Drop(_) =>
    }
  }

  // The state after any sequence of actions. An action that is not enabled changes nothing.
  ghost function Run(start: int, actions: seq<Action>): (s: System)
    ensures Inv(s)
    decreases |actions|
  {
    if actions == [] then Initial(start)
    else
      var k := |actions| - 1;
      var s := Run(start, actions[..k]);
      if Enabled(s, actions[k]) then
        StepHolds(s, actions[k]);
        Next(s, actions[k])
      else s
  }

  // Every queued deadline is in the future, and every timer belongs to exactly one sleep, which
  // is not complete.
  lemma TimersBelongToSleeps(start: int, actions: seq<Action>, t: Timer)
    requires t in Run(start, actions).clock.timers
    ensures var s := Run(start, actions);
      && t.deadline > s.clock.current
      && exists id :: id in s.sleeps && Owns(s.sleeps[id], t)
           && forall k :: k in s.sleeps && Owns(s.sleeps[k], t) ==> k == id
  {
    var s := Run(start, actions);
    var id :| id in s.sleeps && Owns(s.sleeps[id], t);
  }

  ghost predicate HasOneTimer(c: Clock, f: Sleep, w: Waker) {
    exists t ::
      && t in c.timers && Owns(f, t) && t.waker == w
      && forall u :: u in c.timers && f.timer == Some(u.id) ==> u == t
  }

  // No polled sleep is ever lost: until it is due its one timer is queued with the waker of its
  // latest poll, and once it is due that waker has been called since that poll.
  lemma NoSleepIsLost(start: int, actions: seq<Action>, id: SleepId)
    ensures var s := Run(start, actions);
      id in s.sleeps && id in s.last && !s.sleeps[id].completed ==>
        var (f, last) := (s.sleeps[id], s.last[id]);
        && last.mark <= |s.wakes|
        && (f.deadline > s.clock.current ==> HasOneTimer(s.clock, f, last.waker))
        && (f.deadline <= s.clock.current ==> last.waker in s.wakes[last.mark..])
  {
    hide Run;
    var s := Run(start, actions);
    if id in s.sleeps && id in s.last && !s.sleeps[id].completed {
      var f := s.sleeps[id];
      assert SleepOk(s.clock, f) && Attended(f, s.last[id], s.clock.current, s.wakes);
      if f.deadline > s.clock.current {
        var t := Timer(f.timer.value, f.deadline, f.waker.value);
        assert t in s.clock.timers && Owns(f, t);
      }
    }
  }

  lemma PollFacts(f: Sleep, c: Clock, w: Waker)
    ensures var r := PollSleep(f, c, w);
      && r.clock.current == c.current && r.sleep.deadline == f.deadline
      && (f.deadline > c.current ==> !r.ready && !r.woke && r.sleep.waker == Some(w) && r.sleep.yielded == f.yielded)
      && (f.deadline <= c.current ==> r.sleep.yielded && r.ready == f.yielded && r.woke != f.yielded)
      && (r.ready ==> r.sleep.completed)
  {
  }

  // A poll of the sleep `id`, made when it was due, after the actions `[..k]`, since when the sleep
  // has existed.
  ghost predicate DuePollAt(start: int, actions: seq<Action>, id: SleepId, k: nat) {
    && k < |actions| && IsDuePoll(Run(start, actions[..k]), actions[k], id)
    && forall j :: k <= j <= |actions| ==> id in Run(start, actions[..j]).sleeps
  }

  predicate IsDuePoll(s: System, a: Action, id: SleepId) {
    Enabled(s, a) && a.Poll? && a.id == id && s.sleeps[id].deadline <= s.clock.current
  }

  lemma RunLast(start: int, actions: seq<Action>)
    requires actions != []
    ensures Run(start, actions) == After(Run(start, actions[..|actions| - 1]), actions[|actions| - 1])
  {
  }

  function After(s: System, a: Action): System {
    if Enabled(s, a) then Next(s, a) else s
  }

  // The flag is set by a poll of the sleep that is made when it is due, and by nothing else.
  lemma YieldsNow(s: System, a: Action, id: SleepId)
    ensures var t := After(s, a);
      && (IsDuePoll(s, a, id) ==> id in s.sleeps)
      && (id in t.sleeps ==>
            t.sleeps[id].yielded == (id in s.sleeps && (s.sleeps[id].yielded || IsDuePoll(s, a, id))))
  {
  }

  lemma YieldedIff(start: int, actions: seq<Action>, id: SleepId)
    requires id in Run(start, actions).sleeps
    ensures Run(start, actions).sleeps[id].yielded <==> exists k :: DuePollAt(start, actions, id, k)
  {
    hide Run, Inv, IsDuePoll, After;
    var held := (i: nat) => i <= |actions| && id in Run(start, actions[..i]).sleeps;
    var flag := (i: nat) => held(i) && Run(start, actions[..i]).sleeps[id].yielded;
    var ask := (i: nat) => i < |actions| && IsDuePoll(Run(start, actions[..i]), actions[i], id);
    NothingYielded(start);
    forall i: nat | i < |actions|
      ensures LatchStep(flag, ask, held, i)
    {
      RunLast(start, actions[..i + 1]);
      assert actions[..i + 1][..i] == actions[..i];
      YieldsNow(Run(start, actions[..i]), actions[i], id);
    }
    assert actions[..0] == [] && actions[..|actions|] == actions;
    LatchIff(flag, ask, held, |actions|);
    if k: nat :| SetAndHeld(ask, held, |actions|, k) {
      forall j | k <= j <= |actions|
        ensures id in Run(start, actions[..j]).sleeps
      {
        assert held(j);
      }
      assert DuePollAt(start, actions, id, k);
    }
    if k: nat :| DuePollAt(start, actions, id, k) {
      assert SetAndHeld(ask, held, |actions|, k);
    }
  }

  lemma NothingYielded(start: int)
    ensures Run(start, []).sleeps == map[]
  {
  }

  // In every run, a poll of a sleep is ready if and only if the sleep is due and has been polled
  // before when it was due: it yields once, even if it was polled only before its deadline.
  lemma ReadyIff(start: int, actions: seq<Action>, id: SleepId, w: Waker)
    requires Enabled(Run(start, actions), Poll(id, w))
    ensures var s := Run(start, actions);
      var due := s.sleeps[id].deadline <= s.clock.current;
      PollSleep(s.sleeps[id], s.clock, w).ready <==> due && exists k :: DuePollAt(start, actions, id, k)
  {
    hide Run, DuePollAt;
    YieldedIff(start, actions, id);
  }

  // By deadline and, where deadlines agree, by the order of registration.
  ghost predicate ByDeadline(fired: seq<Timer>) {
    forall i, j :: 0 <= i < j < |fired| ==>
      fired[i].deadline < fired[j].deadline || (fired[i].deadline == fired[j].deadline && fired[i].id < fired[j].id)
  }

  // The clock moves to the target if that is ahead and stays otherwise. Advancing returns exactly
  // the timers that are due, in their order.
  lemma AdvanceReturnsDue(start: int, actions: seq<Action>, target: int)
    ensures var s := Run(start, actions);
      var (d, fired) := AdvanceTo(s.clock, target);
      && (target > s.clock.current ==> d.current == target)
      && (target <= s.clock.current ==> d.current == s.clock.current)
      && s.clock.timers == fired + d.timers && ByDeadline(fired)
      && (forall i :: 0 <= i < |fired| ==> fired[i].deadline <= d.current)
      && (forall t :: t in d.timers ==> t.deadline > d.current)
  {
    hide Run, ByDeadline, ClockOk, Sorted, Due;
    var c := Run(start, actions).clock;
    assert Sorted(c.timers) by { ClockIsSorted(c); }
    DueIsPrefix(c.timers, Later(c.current, target));
    AdvanceOk(c, target);
    PrefixByDeadline(c.timers, Due(c.timers, Later(c.current, target)));
  }

  lemma ClockIsSorted(c: Clock)
    requires ClockOk(c)
    ensures Sorted(c.timers)
  {
  }

  lemma PrefixByDeadline(timers: seq<Timer>, n: nat)
    requires Sorted(timers) && n <= |timers|
    ensures ByDeadline(timers[..n])
  {
    forall i, j | 0 <= i < j < n
      ensures Precedes(timers[..n][i], timers[..n][j])
    {
      assert Precedes(timers[i], timers[j]);
    }
  }

  // A poll before the deadline with the waker of the last one changes nothing, and so the sleep keeps
  // its place among equal deadlines.
  lemma SpuriousPollChangesNothing(s: System, id: SleepId, w: Waker)
    requires Inv(s) && Enabled(s, Poll(id, w)) && s.sleeps[id].deadline > s.clock.current
    requires id in s.last && s.last[id].waker == w
    ensures Next(s, Poll(id, w)) == s.(last := s.last[id := LastPoll(w, |s.wakes|)])
  {
    hide ClockOk, OwnersOk;
    assert SleepOk(s.clock, s.sleeps[id]) && Attended(s.sleeps[id], s.last[id], s.clock.current, s.wakes);
    assert s.sleeps[id := s.sleeps[id]] == s.sleeps;
  }

  // Ids count the registrations.
  lemma IdsCountRegistrations(c: Clock, deadline: int, w: Waker)
    requires ClockOk(c)
    ensures var d := Register(c, deadline, w);
      && (exists t :: t in d.timers && t.id == c.nextId && t.deadline == deadline && t.waker == w)
      && (forall t :: t in c.timers ==> t in d.timers && t.id < c.nextId)
      && d.nextId == c.nextId + 1 && d.current == c.current && |d.timers| == |c.timers| + 1
  {
    var t := Timer(c.nextId, deadline, w);
    forall i | 0 <= i < |c.timers|
      ensures c.timers[i].id != c.nextId
    {
      assert c.timers[i] in c.timers;
    }
    PushSorted(c.timers, t);
    PushLonger(c.timers, t);
    assert t in Register(c, deadline, w).timers;
  }

  lemma {:induction false} PushLonger(timers: seq<Timer>, t: Timer)
    ensures |Push(timers, t)| == |timers| + 1
  {
    if timers != [] {
      PushLonger(timers[1..], t);
    }
  }
}

module VirtualClocks {
  import opened Bytes
  import opened VirtualClockSpec
  import Spec = VirtualClockSpec

  class VirtualClockState {
    var current: int
    var timers: seq<Timer>
    var nextTimerId: nat

    constructor (start: int)
      ensures Value() == Clock(start, [], 1)
    {
      current, timers, nextTimerId := start, [], 1;
    }

    function Value(): Clock
      reads this
    {
      Clock(current, timers, nextTimerId)
    }

    // Moves the clock forward and pops the timers that are due.
    method AdvanceTo(target: int) returns (expired: seq<Timer>)
      modifies this
      ensures (Value(), expired) == Spec.AdvanceTo(old(Value()), target)
    {
      if target > current {
        current := target;
      }
      ghost var all := timers;
      expired := [];
      while timers != []
        invariant current == Later(old(current), target) && nextTimerId == old(nextTimerId)
        invariant all == expired + timers && Due(all, current) == |expired| + Due(timers, current)
        decreases |timers|
      {
        var timer := timers[0];
        if timer.deadline <= current {
          timers := timers[1..];
          expired := expired + [timer];
        } else {
          break;
        }
      }
      assert all[..|expired|] == expired && all[|expired|..] == timers;
    }

    method Advance(duration: nat) returns (expired: seq<Timer>)
      modifies this
      ensures (Value(), expired) == Spec.AdvanceTo(old(Value()), old(current) + duration)
    {
      expired := AdvanceTo(current + duration);
    }

    method RegisterTimer(deadline: int, waker: Waker) returns (id: nat)
      modifies this
      ensures id == old(nextTimerId) && Value() == Register(old(Value()), deadline, waker)
    {
      id := nextTimerId;
      nextTimerId := nextTimerId + 1;
      timers := Push(timers, Timer(id, deadline, waker));
    }

    method CancelTimer(id: nat)
      modifies this
      ensures Value() == Spec.CancelTimer(old(Value()), id)
    {
      timers := Without(timers, id);
    }
  }

  class VirtualSleepFuture {
    const deadline: int
    var timerId: Option<nat>
    var cachedWaker: Option<Waker>
    var completed: bool
    var yieldedOnce: bool

    constructor (d: int)
      ensures Value() == NewSleep(d)
    {
      deadline := d;
      timerId, cachedWaker, completed, yieldedOnce := None, None, false, false;
    }

    function Value(): Sleep
      reads this
    {
      Sleep(deadline, timerId, cachedWaker, completed, yieldedOnce)
    }

    // The second result tells whether it calls `waker`.
    method Poll(clock: VirtualClockState, waker: Waker) returns (ready: bool, woke: bool)
      requires !completed
      modifies this, clock
      ensures Polled(ready, woke, Value(), clock.Value()) == PollSleep(old(Value()), old(clock.Value()), waker)
    {
      var now := clock.current;
      if now >= deadline {
        if !yieldedOnce {
          yieldedOnce := true;
          return false, true;
        }
        completed := true;
        timerId := None;
        return true, false;
      }
      var needsRegister := !(timerId.Some? && cachedWaker == Some(waker));
      if needsRegister {
        var oldId := timerId;
        if oldId.Some? {
          clock.CancelTimer(oldId.value);
        }
        var id := clock.RegisterTimer(deadline, waker);
        timerId := Some(id);
        cachedWaker := Some(waker);
      }
      return false, false;
    }

    method Cancel(clock: VirtualClockState)
      modifies this, clock
      ensures clock.Value() == StopSleep(old(Value()), old(clock.Value()))
      ensures Value() == old(Value()).(timer := None, completed := true)
    {
      if timerId.Some? {
        clock.CancelTimer(timerId.value);
        timerId := None;
      }
      completed := true;
    }

    method Drop(clock: VirtualClockState)
      modifies this, clock
      ensures clock.Value() == StopSleep(old(Value()), old(clock.Value()))
      ensures Value() == old(Value()).(timer := None)
    {
      if timerId.Some? {
        clock.CancelTimer(timerId.value);
        timerId := None;
      }
    }
  }
}
