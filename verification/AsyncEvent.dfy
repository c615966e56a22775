// Events and their wait lists.
//
// `WaitSpec` gives every operation of the wait list and of a wait future as a function of the
// event's state and queue. The classes of `AsyncEvent` are proved to compute these functions,
// and the protocols built on events are proved correct in terms of them.

module WaitSpec {
  import opened Bytes

  // The identity of a `WaitData`.
  type Id = nat

  datatype Event = Event(isSet: bool, queue: seq<Id>)

  function Elems(q: seq<Id>): set<Id> {
    set w | w in q
  }

  lemma EmptyQueue()
    ensures NoDup<Id>([]) && Elems([]) == {}
  {
  }

  function Remove(q: seq<Id>, w: Id): seq<Id> {
    if q == [] then [] else if q[0] == w then q[1..] else [q[0]] + Remove(q[1..], w)
  }

  lemma {:induction false} RemoveElems(q: seq<Id>, w: Id)
    requires NoDup(q)
    ensures NoDup(Remove(q, w)) && Elems(Remove(q, w)) == Elems(q) - {w}
  {
    if q != [] {
      TailElems(q);
      if q[0] != w {
        RemoveElems(q[1..], w);
        var r := Remove(q[1..], w);
        assert q[0] !in Elems(r);
        assert Elems([q[0]] + r) == {q[0]} + Elems(r);
      }
    } else {
      assert Elems(Remove(q, w)) == {};
    }
  }

  lemma TailElems(q: seq<Id>)
    requires NoDup(q) && q != []
    ensures NoDup(q[1..]) && q[0] in Elems(q) && Elems(q[1..]) == Elems(q) - {q[0]}
  {
    forall w | w in Elems(q) - {q[0]}
      ensures w in q[1..]
    {
      var i :| 0 <= i < |q| && q[i] == w;
      assert q[1..][i - 1] == w;
    }
  }

  lemma AppendElems(q: seq<Id>, w: Id)
    requires NoDup(q) && w !in q
    ensures NoDup(q + [w]) && Elems(q + [w]) == Elems(q) + {w}
  {
  }

  // How many pending waits are unlinked, and how many entries are not pending, when a pending
  // wait ends and when an entry leaves the queue.

  lemma EndWait(live: set<Id>, q: set<Id>, w: Id)
    ensures |q - (live - {w})| == |q - live| + if w in live && w in q then 1 else 0
    ensures |live - {w} - q| == |live - q| - if w in live && w !in q then 1 else 0
  {
    if w in live && w in q {
      assert q - (live - {w}) == q - live + {w};
    } else {
      assert q - (live - {w}) == q - live;
    }
    assert live - {w} - q == live - q - {w};
  }

  lemma LeaveQueue(live: set<Id>, q: set<Id>, w: Id)
    requires w in q
    ensures |q - {w} - live| == |q - live| - if w in live then 0 else 1
    ensures |live - (q - {w})| == |live - q| + if w in live then 1 else 0
  {
    assert q - {w} - live == q - live - {w};
    if w in live {
      assert live - (q - {w}) == live - q + {w};
    } else {
      assert live - (q - {w}) == live - q;
    }
  }

  // A wait that links itself again.
  lemma JoinQueue(live: set<Id>, q: set<Id>, w: Id)
    requires w in live && w !in q
    ensures |live - (q + {w})| == |live - q| - 1
  {
    assert live - (q + {w}) == live - q - {w};
  }

  lemma NotLinked(q: seq<Id>, w: Id)
    requires w !in Elems(q)
    ensures w !in q
  {
  }

  // The event operations.

  function WakeAll(e: Event): Event {
    e.(queue := [])
  }

  function SetAll(e: Event): Event {
    Event(true, [])
  }

  function SetWakeN(e: Event, n: nat): Event {
    Event(true, if n <= |e.queue| then e.queue[n..] else [])
  }

  // `reset` wakes every waiter.
  function Reset(e: Event): Event {
    Event(false, [])
  }

  function Register(e: Event, w: Id): Event {
    if w in e.queue then e else e.(queue := e.queue + [w])
  }

  function Unregister(e: Event, w: Id): Event {
    e.(queue := Remove(e.queue, w))
  }

  // What dropping a registered wait, or polling it after it was canceled, does to the event:
  // it is unlinked, and if its condition holds every other waiter is woken in its place.
  function Retire(e: Event, w: Id, expected: bool): Event {
    var u := Unregister(e, w);
    if u.isSet == expected then WakeAll(u) else u
  }

  // First come, first served: waiters leave from the front of the queue, or `w` from its place,
  // and `v` joins at the back.
  ghost predicate InOrder(q: seq<Id>, r: seq<Id>, w: Id, v: Id) {
    exists n: nat :: n <= |q| && (Follows(q[n..], r, v) || Follows(Remove(q[n..], w), r, v))
  }

  predicate Follows(q: seq<Id>, r: seq<Id>, v: Id) {
    r == q || r == q + [v]
  }

  lemma StaysInOrder(q: seq<Id>, n: nat, w: Id, v: Id)
    requires n <= |q|
    ensures InOrder(q, q[n..], w, v) && InOrder(q, q[n..] + [v], w, v)
    ensures InOrder(q, Remove(q[n..], w), w, v) && InOrder(q, Remove(q[n..], w) + [v], w, v)
  {
    hide Remove;
    assert Follows(q[n..], q[n..], v) && Follows(q[n..], q[n..] + [v], v);
    var r := Remove(q[n..], w);
    assert Follows(r, r, v) && Follows(r, r + [v], v);
  }

  lemma {:induction false} RemoveLast(q: seq<Id>, w: Id)
    ensures Remove([], w) == [] && (w !in q ==> Remove(q + [w], w) == q)
  {
    if q == [] {
      assert q + [w] == [w];
    } else {
      assert (q + [w])[1..] == q[1..] + [w];
      RemoveLast(q[1..], w);
    }
  }

  // The orders that a step can leave.
  lemma OrderFacts(q: seq<Id>, w: Id, v: Id)
    ensures InOrder(q, q, w, v) && InOrder(q, [], w, v) && InOrder(q, Remove(q, w), w, v)
    ensures InOrder(q, q + [v], w, v) && InOrder(q, Remove(q, w) + [v], w, v) && InOrder(q, [v], w, v)
    ensures q != [] ==> InOrder(q, q[1..], w, v)
    ensures q[0..] == q && Remove([], w) == [] && (w !in q ==> Remove(q + [w], w) == q)
  {
    hide InOrder;
    RemoveLast(q, w);
    hide Remove;
    StaysInOrder(q, 0, w, v);
    assert q[0..] == q;
    StaysInOrder(q, |q|, w, v);
    assert q[|q|..] == [] && [] + [v] == [v];
    if q != [] {
      StaysInOrder(q, 1, w, v);
    }
  }

  datatype Outcome = Pending | Ready | Canceled | Panicked

  // One poll of a wait. `registered` says whether it was polled before, and so has wait data. A wait that completes
  // leaves its entry in the queue.
  function PollWait(e: Event, registered: bool, w: Id, expected: bool, canceled: bool, aborted: bool)
    : (Outcome, Event)
  {
    if registered && canceled then (Canceled, Retire(e, w, expected))
    else if aborted then (Panicked, WakeAll(e))
    else if e.isSet == expected then (Ready, e)
    else (Pending, Register(e, w))
  }
}

module AsyncEvents {
  import opened WaitSpec

  class AsyncEvent {
    var state: bool
    var waiting: seq<Id>
    // The wakers called so far, in order.
    var wakes: seq<Id>

    constructor WithState(s: bool)
      ensures Value() == Event(s, []) && wakes == []
    {
      state := s;
      waiting := [];
      wakes := [];
    }

    function Value(): Event
      reads this
    {
      Event(state, waiting)
    }

    method WakeOne() returns (woken: bool)
      modifies this
      ensures state == old(state)
      ensures woken <==> old(waiting) != []
      ensures woken ==> waiting == old(waiting)[1..] && wakes == old(wakes) + [old(waiting)[0]]
      ensures !woken ==> waiting == [] && wakes == old(wakes)
    {
      if waiting == [] {
        return false;
      }
      var task := waiting[0];
      waiting := waiting[1..];
      wakes := wakes + [task];
      return true;
    }

    // Wakes the waiters in the order in which they registered.
    method WakeAll()
      modifies this
      ensures Value() == WaitSpec.WakeAll(old(Value()))
      ensures wakes == old(wakes) + old(waiting)
    {
      var more := true;
      while more
        invariant state == old(state)
        invariant wakes + waiting == old(wakes) + old(waiting)
        invariant !more ==> waiting == []
        decreases more, |waiting|
      {
        ghost var rest := waiting;
        more := WakeOne();
        assert more ==> rest == [rest[0]] + rest[1..];
      }
      assert wakes == wakes + waiting;
    }

    method Set()
      modifies this
      ensures Value() == SetAll(old(Value()))
      ensures wakes == old(wakes) + old(waiting)
    {
      state := true;
      WakeAll();
    }

    method SetWakeOne()
      modifies this
      ensures Value() == WaitSpec.SetWakeN(old(Value()), 1)
      ensures wakes == old(wakes) + (if old(waiting) == [] then [] else [old(waiting)[0]])
    {
      SetWakeN(1);
    }

    // Wakes the first `count` waiters, or all of them if there are fewer.
    method SetWakeN(count: nat)
      modifies this
      ensures Value() == WaitSpec.SetWakeN(old(Value()), count)
      ensures wakes == old(wakes) + (if count <= |old(waiting)| then old(waiting)[..count] else old(waiting))
    {
      state := true;
      var left := count;
      while left > 0
        invariant state && 0 <= left <= count
        invariant count - left <= old(|waiting|) && waiting == old(waiting)[count - left..]
        invariant wakes == old(wakes) + old(waiting)[..count - left]
      {
        var woken := WakeOne();
        if !woken {
          assert count - left == |old(waiting)|;
          break;
        }
        left := left - 1;
      }
      if left > 0 {
        assert old(waiting)[..count - left] == old(waiting);
      }
    }

    // Resetting wakes every waiter too.
    method Reset()
      modifies this
      ensures Value() == WaitSpec.Reset(old(Value()))
      ensures wakes == old(wakes) + old(waiting)
    {
      state := false;
      WakeAll();
    }

    method Register(w: Id)
      modifies this
      ensures Value() == WaitSpec.Register(old(Value()), w) && wakes == old(wakes)
      ensures waiting == if w in old(waiting) then old(waiting) else old(waiting) + [w]
    {
      if w !in waiting {
        waiting := waiting + [w];
      }
    }

    method Unregister(w: Id)
      modifies this
      ensures Value() == WaitSpec.Unregister(old(Value()), w) && wakes == old(wakes)
    {
      waiting := Remove(waiting, w);
    }

    predicate AnyWaiting()
      reads this
    {
      waiting != []
    }
  }

  // `WaitFuture` over an event.
  class WaitFuture {
    const event: AsyncEvent
    const expected: bool
    // The identity that its wait data has or will have.
    const id: Id
    // `source.is_some()` and `wait_data.is_some()`.
    var source: bool
    var waitData: bool
    // Set by the task, in an `io_scope`.
    var canceled: bool

    constructor (e: AsyncEvent, state: bool, w: Id)
      ensures event == e && expected == state && id == w && source && !waitData && !canceled
    {
      event, expected, id := e, state, w;
      source, waitData, canceled := true, false, false;
    }

    method UnregisterCanceledWait()
      modifies this, event
      ensures source == old(source) && canceled == old(canceled) && !waitData
      ensures event.Value()
        == if old(waitData) && source then Retire(old(event.Value()), id, expected) else old(event.Value())
    {
      if waitData {
        waitData := false;
        if source {
          event.Unregister(id);
          if event.state == expected {
            event.WakeAll();
          }
        }
      }
    }

    // One poll. `aborted` says whether the polling task was aborted.
    method Poll(aborted: bool) returns (r: Outcome)
      requires source
      modifies this, event
      ensures (r, event.Value()) == PollWait(old(event.Value()), old(waitData), id, expected, old(canceled), aborted)
      ensures r == Pending ==> source && waitData
      ensures r == Ready ==> !source && waitData == old(waitData)
      ensures r == Canceled ==> source && !waitData && !canceled
      ensures r == Panicked ==> source && waitData == old(waitData)
      ensures r != Canceled ==> canceled == old(canceled)
    {
      if waitData && canceled {
        canceled := false;
        UnregisterCanceledWait();
        return Canceled;
      }
      if aborted {
        event.WakeAll();
        return Panicked;
      }
      if event.state == expected {
        source := false;
        return Ready;
      }
      event.Register(id);
      waitData := true;
      return Pending;
    }

    method Drop()
      modifies this, event
      ensures !waitData && source == old(source)
      ensures event.Value()
        == if old(waitData && source) then Retire(old(event.Value()), id, expected) else old(event.Value())
    {
      UnregisterCanceledWait();
    }
  }
}
