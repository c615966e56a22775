// The in-memory stream: a ring of 1024 bytes between one reader and one writer.

module BufferPipeSpec {
  import opened Bytes

  const CAPACITY := 1024

  function Min(a: int, b: int): int {
    if a < b then a else b
  }

  // A position in the ring that has passed its end once at most.
  function Wrap(i: nat): nat
    requires i < 2 * CAPACITY
  {
    if i < CAPACITY then i else i - CAPACITY
  }

  lemma WrapIsModulo(i: nat)
    requires i < 2 * CAPACITY
    ensures i % CAPACITY == Wrap(i)
  {
  }

  // The stream: where the contents start in the ring, the contents, the two events and the flag.
  datatype Pipe = Pipe(head: nat, content: seq<Byte>, available: bool, notFull: bool, closed: bool)

  // While the stream is open each event is set exactly when its condition holds; a closed stream may
  // also have them set without it.
  predicate PipeOk(p: Pipe) {
    && p.head < CAPACITY && |p.content| <= CAPACITY
    && (p.content != [] ==> p.available) && (|p.content| < CAPACITY ==> p.notFull)
    && (!p.closed && p.available ==> p.content != []) && (!p.closed && p.notFull ==> |p.content| < CAPACITY)
  }

  const EMPTY := Pipe(0, [], false, true, false)

  function Events(p: Pipe): Pipe {
    p.(available := |p.content| > 0, notFull := |p.content| != CAPACITY)
  }

  // How many bytes one move takes: not beyond the end of the ring.
  function TakeSize(p: Pipe, room: nat): (n: nat)
    requires PipeOk(p)
    ensures n <= |p.content| && n <= room && p.head + n <= CAPACITY
    ensures n == 0 <==> p.content == [] || room == 0
    ensures n == room || n == |p.content| || p.head + n == CAPACITY
  {
    Min(Min(p.head + |p.content|, CAPACITY) - p.head, room)
  }

  function Take(p: Pipe, room: nat): Pipe
    requires PipeOk(p)
  {
    var n := TakeSize(p, room);
    Events(p.(head := (p.head + n) % CAPACITY, content := p.content[n..]))
  }

  function PutSize(p: Pipe, data: seq<Byte>): (n: nat)
    requires PipeOk(p)
    ensures n <= |data| && |p.content| + n <= CAPACITY && Wrap(p.head + |p.content|) + n <= CAPACITY
    ensures n == 0 <==> |p.content| == CAPACITY || data == []
    ensures n == |data| || |p.content| + n == CAPACITY || Wrap(p.head + |p.content|) + n == CAPACITY
  {
    WrapIsModulo(p.head + |p.content|);
    var freeHead := (p.head + |p.content|) % CAPACITY;
    Min(|data|, Min(freeHead + CAPACITY - |p.content|, CAPACITY) - freeHead)
  }

  function Put(p: Pipe, data: seq<Byte>): Pipe
    requires PipeOk(p)
  {
    Events(p.(content := p.content + data[..PutSize(p, data)]))
  }

  // `shutdown` and `close`.
  function Shut(p: Pipe): Pipe {
    p.(closed := true, available := true, notFull := true)
  }

  lemma MovesAreOk(p: Pipe, room: nat, data: seq<Byte>)
    requires PipeOk(p)
    ensures PipeOk(Take(p, room)) && PipeOk(Put(p, data)) && PipeOk(Shut(p))
  {
    WrapIsModulo(p.head + TakeSize(p, room));
  }

  lemma TakeFacts(p: Pipe, room: nat)
    requires PipeOk(p)
    ensures Take(p, room).content == p.content[TakeSize(p, room)..] && Take(p, room).closed == p.closed
    ensures |Take(p, room).content| < CAPACITY || Take(p, room).content == p.content
    ensures Take(p, room).available <==> Take(p, room).content != []
  {
  }

  lemma TakeIs(p: Pipe, room: nat)
    requires PipeOk(p)
    ensures var n := TakeSize(p, room);
      && n == Min(Min(p.head + |p.content|, CAPACITY) - p.head, room)
      && Take(p, room) == Events(Pipe(Wrap(p.head + n), p.content[n..], p.available, p.notFull, p.closed))
  {
    WrapIsModulo(p.head + TakeSize(p, room));
  }

  lemma PutFacts(p: Pipe, data: seq<Byte>)
    requires PipeOk(p)
    ensures Put(p, data).content == p.content + data[..PutSize(p, data)] && Put(p, data).closed == p.closed
  {
  }

  datatype Outcome = Done | Broken | Blocked

  // One poll of `read` that still wants `room` bytes and is not disturbed: the outcome, the bytes
  // it moves and the stream after it.
  function PollRead(p: Pipe, room: nat): (Outcome, seq<Byte>, Pipe)
    requires PipeOk(p)
    decreases room
  {
    if room == 0 then (Done, [], p)
    else if !p.available then (Blocked, [], p)
    else
      var n := TakeSize(p, room);
      MovesAreOk(p, room, []);
      if n == 0 then (Broken, [], Take(p, room))
      else
        var (outcome, bytes, q) := PollRead(Take(p, room), room - n);
        (outcome, p.content[..n] + bytes, q)
  }

  // One poll of `write` with `data` still to send: the outcome, how much it sends, and the stream.
  function PollWrite(p: Pipe, data: seq<Byte>): (r: (Outcome, nat, Pipe))
    requires PipeOk(p)
    ensures r.1 <= |data|
    decreases |data|, p.notFull
  {
    if data == [] then (Done, 0, p)
    else if !p.notFull then (Blocked, 0, p)
    else
      var n := PutSize(p, data);
      MovesAreOk(p, 0, data);
      var (outcome, sent, q) := PollWrite(Put(p, data), data[n..]);
      (outcome, n + sent, q)
  }

  // The first round of the loop.
  lemma PollReadUnfolds(p: Pipe, room: nat, front: seq<Byte>)
    requires PipeOk(p)
    ensures var n := TakeSize(p, room);
      && PipeOk(Take(p, room))
      && (room == 0 ==> PollRead(p, room) == (Done, [], p))
      && (room > 0 && !p.available ==> PollRead(p, room) == (Blocked, [], p))
      && (room > 0 && p.available && n == 0 ==> PollRead(p, room) == (Broken, [], Take(p, room)))
      && (room > 0 && p.available && n > 0 ==>
            var rest := PollRead(Take(p, room), room - n);
            PollRead(p, room) == (rest.0, p.content[..n] + rest.1, rest.2)
            && front + (p.content[..n] + rest.1) == front + p.content[..n] + rest.1)
      && front + [] == front
  {
    hide TakeSize, Take;
    MovesAreOk(p, room, []);
    var n := TakeSize(p, room);
    Associative(front, p.content[..n], PollRead(Take(p, room), room - n).1);
  }

  // A poll of `read` moves as many bytes as it wants and the stream holds, in order. On an open
  // stream it waits for the rest. On a closed stream it waits if it got some bytes but not all,
  // and fails if it got none, unless the event was already reset.
  lemma {:induction false} PollReadFacts(p: Pipe, room: nat)
    requires PipeOk(p)
    ensures var (outcome, bytes, q) := PollRead(p, room);
      && PipeOk(q) && q.closed == p.closed
      && bytes + q.content == p.content && |bytes| == Min(room, |p.content|)
      && (outcome == Done <==> |bytes| == room)
      && (outcome == Broken <==> p.closed && p.available && p.content == [] && room > 0)
      && (outcome == Blocked ==> !q.available)
    decreases room
  {
    hide Take, TakeSize;
    if room > 0 && p.available {
      MovesAreOk(p, room, []);
      TakeFacts(p, room);
      var n := TakeSize(p, room);
      if n > 0 {
        PollReadFacts(Take(p, room), room - n);
        var bytes := PollRead(Take(p, room), room - n).1;
        Regroup(p.content, n, bytes, PollRead(Take(p, room), room - n).2.content);
      }
    }
  }

  lemma Regroup(w: seq<Byte>, n: nat, a: seq<Byte>, b: seq<Byte>)
    requires n <= |w| && a + b == w[n..]
    ensures w[..n] + a + b == w
  {
    assert w == w[..n] + w[n..];
    assert w[..n] + a + b == w[..n] + (a + b);
  }

  lemma Associative(a: seq<Byte>, b: seq<Byte>, c: seq<Byte>)
    ensures a + (b + c) == a + b + c
  {
  }

  lemma AppendTwo(w: seq<Byte>, data: seq<Byte>, n: nat, k: nat)
    requires n + k <= |data|
    ensures w + data[..n] + data[n..][..k] == w + data[..n + k]
  {
    assert data[..n + k] == data[..n] + data[n..][..k];
    assert w + data[..n] + data[n..][..k] == w + (data[..n] + data[n..][..k]);
  }

  // A poll of `write` sends as much as fits, in order, and waits for the rest.
  lemma {:induction false} PollWriteFacts(p: Pipe, data: seq<Byte>)
    requires PipeOk(p)
    ensures var (outcome, sent, q) := PollWrite(p, data);
      && PipeOk(q) && q.closed == p.closed
      && sent == Min(|data|, CAPACITY - |p.content|) && q.content == p.content + data[..sent]
      && (outcome == Done <==> sent == |data|) && outcome != Broken
      && (outcome == Blocked ==> !q.notFull)
    decreases |data|, p.notFull
  {
    if data != [] && p.notFull {
      MovesAreOk(p, 0, data);
      var n := PutSize(p, data);
      PollWriteFacts(Put(p, data), data[n..]);
      AppendTwo(p.content, data, n, PollWrite(Put(p, data), data[n..]).1);
    } else {
      assert p.content + data[..0] == p.content;
    }
  }
}

// The reader, the writer and whoever closes the stream, step by step.
module BufferPipeSystem {
  import opened Bytes
  import opened BufferPipeSpec

  // A call of `read` (or of `try_read`, which moves once) for `size` bytes that has moved `got`, and
  // whether it has passed its wait.
  datatype Reader = NoReader | Reading(size: nat, once: bool, got: seq<Byte>, passed: bool)

  datatype Writer = NoWriter | Writing(data: seq<Byte>, sent: nat, passed: bool)

  // Calls that are over: they succeeded, or failed or were dropped.
  datatype Read = Read(size: nat, once: bool, got: seq<Byte>, ok: bool)
  datatype Write = Write(data: seq<Byte>, sent: nat, ok: bool)

  datatype System = System(pipe: Pipe, reader: Reader, writer: Writer, readLog: seq<Read>, writeLog: seq<Write>)

  const INITIAL := System(EMPTY, NoReader, NoWriter, [], [])

  datatype Action =
    | StartRead(size: nat, once: bool) | ReaderWait | ReaderTake | DropReader
    | StartWrite(data: seq<Byte>) | WriterWait | WriterPut | DropWriter
    | Close

  predicate Enabled(s: System, a: Action) {
    match a
    case StartRead(_, _) => s.reader.NoReader?
    case ReaderWait => s.reader.Reading? && !s.reader.passed && s.pipe.available
    case ReaderTake => s.reader.Reading? && s.reader.passed
    case DropReader => s.reader.Reading?
    case StartWrite(_) => s.writer.NoWriter?
    case WriterWait => s.writer.Writing? && !s.writer.passed && s.pipe.notFull
    case WriterPut => s.writer.Writing? && s.writer.passed
    case DropWriter => s.writer.Writing?
    case Close => true
  }

  function EndRead(s: System, got: seq<Byte>, ok: bool): System
    requires s.reader.Reading?
  {
    s.(reader := NoReader, readLog := s.readLog + [Read(s.reader.size, s.reader.once, got, ok)])
  }

  function EndWrite(s: System, sent: nat, ok: bool): System
    requires s.writer.Writing?
  {
    s.(writer := NoWriter, writeLog := s.writeLog + [Write(s.writer.data, sent, ok)])
  }

  // A call that starts: it may be over at once.
  function BeginRead(s: System, size: nat, once: bool): System {
    var t := s.(reader := Reading(size, once, [], false));
    if s.pipe.closed && !s.pipe.available then EndRead(t, [], false)
    else if size == 0 && !once then EndRead(t, [], true)
    else t
  }

  function BeginWrite(s: System, data: seq<Byte>): System {
    var t := s.(writer := Writing(data, 0, false));
    if s.pipe.closed then EndWrite(t, 0, false) else if data == [] then EndWrite(t, 0, true) else t
  }

  // The critical section of the reader.
  function DoTake(s: System): System
    requires PipeOk(s.pipe) && s.reader.Reading? && |s.reader.got| <= s.reader.size
  {
    var room := s.reader.size - |s.reader.got|;
    var n := TakeSize(s.pipe, room);
    var got := s.reader.got + s.pipe.content[..n];
    var t := s.(pipe := Take(s.pipe, room));
    if s.reader.once then EndRead(t, got, true)
    else if n == 0 then EndRead(t, got, false)
    else if |got| == s.reader.size then EndRead(t, got, true)
    else t.(reader := s.reader.(got := got, passed := false))
  }

  function DoPut(s: System): System
    requires PipeOk(s.pipe) && s.writer.Writing? && s.writer.sent <= |s.writer.data|
  {
    var rest := s.writer.data[s.writer.sent..];
    var sent := s.writer.sent + PutSize(s.pipe, rest);
    var t := s.(pipe := Put(s.pipe, rest));
    if sent == |s.writer.data| then EndWrite(t, sent, true)
    else t.(writer := s.writer.(sent := sent, passed := false))
  }

  // The bytes that reads have taken out, and that writes have put in, in order.
  function Delivered(readLog: seq<Read>): seq<Byte> {
    if readLog == [] then [] else Delivered(readLog[..|readLog| - 1]) + readLog[|readLog| - 1].got
  }

  function Taken(s: System): seq<Byte> {
    Delivered(s.readLog) + if s.reader.Reading? then s.reader.got else []
  }

  function Accepted(writeLog: seq<Write>): seq<Byte> {
    if writeLog == [] then []
    else
      var w := writeLog[|writeLog| - 1];
      Accepted(writeLog[..|writeLog| - 1]) + if w.sent <= |w.data| then w.data[..w.sent] else []
  }

  function Given(s: System): seq<Byte> {
    Accepted(s.writeLog)
      + if s.writer.Writing? && s.writer.sent <= |s.writer.data| then s.writer.data[..s.writer.sent] else []
  }

  predicate ReaderOk(s: System) {
    s.reader.Reading? ==>
      && |s.reader.got| <= s.reader.size && (!s.reader.once ==> |s.reader.got| < s.reader.size)
      && (s.reader.once ==> s.reader.got == [])
      && (s.reader.passed && !s.pipe.closed ==> s.pipe.content != [])
  }

  predicate WriterOk(s: System) {
    s.writer.Writing? ==>
      && s.writer.sent < |s.writer.data|
      && (s.writer.passed && !s.pipe.closed ==> |s.pipe.content| < CAPACITY)
  }

  // A call that succeeded has moved everything it was asked to.
  predicate ReadOk(r: Read) {
    |r.got| <= r.size && (r.ok && !r.once ==> |r.got| == r.size)
  }

  predicate WriteOk(w: Write) {
    w.sent <= |w.data| && (w.ok ==> w.sent == |w.data|)
  }

  ghost predicate EndsOk(s: System) {
    && (forall i :: 0 <= i < |s.readLog| ==> ReadOk(s.readLog[i]))
    && (forall i :: 0 <= i < |s.writeLog| ==> WriteOk(s.writeLog[i]))
  }

  // First in, first out.
  predicate Fifo(s: System) {
    Taken(s) + s.pipe.content == Given(s)
  }

  ghost predicate Inv(s: System) {
    PipeOk(s.pipe) && ReaderOk(s) && WriterOk(s) && EndsOk(s) && Fifo(s)
  }

  ghost function Next(s: System, a: Action): System
    requires Inv(s) && Enabled(s, a)
  {
    match a
    case StartRead(size, once) => BeginRead(s, size, once)
    case ReaderWait => s.(reader := s.reader.(passed := true))
    case ReaderTake => DoTake(s)
    case DropReader => EndRead(s, s.reader.got, false)
    case StartWrite(data) => BeginWrite(s, data)
    case WriterWait => s.(writer := s.writer.(passed := true))
    case WriterPut => DoPut(s)
    case DropWriter => EndWrite(s, s.writer.sent, false)
    case Close => s.(pipe := Shut(s.pipe))
  }

  lemma EndReadKeeps(s: System, got: seq<Byte>, ok: bool)
    requires s.reader.Reading? && EndsOk(s) && ReadOk(Read(s.reader.size, s.reader.once, got, ok))
    ensures Taken(EndRead(s, got, ok)) == Delivered(s.readLog) + got && EndsOk(EndRead(s, got, ok))
  {
    var t := EndRead(s, got, ok);
    assert t.readLog[..|t.readLog| - 1] == s.readLog;
  }

  lemma EndWriteKeeps(s: System, sent: nat, ok: bool)
    requires s.writer.Writing? && EndsOk(s) && WriteOk(Write(s.writer.data, sent, ok))
    ensures Given(EndWrite(s, sent, ok)) == Accepted(s.writeLog) + s.writer.data[..sent]
    ensures EndsOk(EndWrite(s, sent, ok))
  {
    var t := EndWrite(s, sent, ok);
    assert t.writeLog[..|t.writeLog| - 1] == s.writeLog;
  }

  lemma BeginReadHolds(s: System, size: nat, once: bool)
    requires Inv(s) && s.reader.NoReader?
    ensures Inv(BeginRead(s, size, once))
  {
    var t := s.(reader := Reading(size, once, [], false));
    assert Taken(t) == Taken(s);
    if (s.pipe.closed && !s.pipe.available) || (size == 0 && !once) {
      EndReadKeeps(t, [], !(s.pipe.closed && !s.pipe.available));
    }
  }

  lemma BeginWriteHolds(s: System, data: seq<Byte>)
    requires Inv(s) && s.writer.NoWriter?
    ensures Inv(BeginWrite(s, data))
  {
    var t := s.(writer := Writing(data, 0, false));
    assert Given(t) == Given(s);
    if s.pipe.closed || data == [] {
      EndWriteKeeps(t, 0, !s.pipe.closed);
    }
  }

  lemma TakeHolds(s: System)
    requires Inv(s) && Enabled(s, ReaderTake)
    ensures Inv(DoTake(s))
  {
    hide Take, Delivered, Accepted;
    var room := s.reader.size - |s.reader.got|;
    var n := TakeSize(s.pipe, room);
    var p := Take(s.pipe, room);
    MovesAreOk(s.pipe, room, []);
    TakeFacts(s.pipe, room);
    var got := s.reader.got + s.pipe.content[..n];
    var d := Delivered(s.readLog);
    assert d + got + p.content == d + s.reader.got + s.pipe.content by {
      assert s.pipe.content == s.pipe.content[..n] + s.pipe.content[n..];
      assert d + got + p.content == d + s.reader.got + (s.pipe.content[..n] + s.pipe.content[n..]);
    }
    var t := s.(pipe := p);
    if s.reader.once || n == 0 || |got| == s.reader.size {
      EndReadKeeps(t, got, s.reader.once || n > 0);
    }
  }

  lemma PutHolds(s: System)
    requires Inv(s) && Enabled(s, WriterPut)
    ensures Inv(DoPut(s))
  {
    hide Put, Delivered, Accepted;
    var rest := s.writer.data[s.writer.sent..];
    var n := PutSize(s.pipe, rest);
    MovesAreOk(s.pipe, 0, rest);
    PutFacts(s.pipe, rest);
    var sent := s.writer.sent + n;
    AppendTwo(Accepted(s.writeLog), s.writer.data, s.writer.sent, n);
    Associative(Taken(s), s.pipe.content, rest[..n]);
    var t := s.(pipe := Put(s.pipe, rest));
    if sent == |s.writer.data| {
      EndWriteKeeps(t, sent, true);
    }
  }

  lemma StepHolds(s: System, a: Action)
    requires Inv(s) && Enabled(s, a)
    ensures Inv(Next(s, a))
  {
    hide BeginRead, BeginWrite, DoTake, DoPut, Delivered, Accepted;
    match a {
      case StartRead(size, once) => BeginReadHolds(s, size, once);
      case ReaderTake => TakeHolds(s);
      case DropReader => EndReadKeeps(s, s.reader.got, false);
      case StartWrite(data) => BeginWriteHolds(s, data);
      case WriterPut => PutHolds(s);
      case DropWriter => EndWriteKeeps(s, s.writer.sent, false);
      case _ =>
    }
  }

  // Runs. An action that is not enabled changes nothing.

  ghost function Step(s: System, a: Action): (t: System)
    requires Inv(s)
    ensures Inv(t)
  {
    if Enabled(s, a) then
      StepHolds(s, a);
      Next(s, a)
    else s
  }

  ghost function RunFrom(s: System, actions: seq<Action>): (t: System)
    requires Inv(s)
    ensures Inv(t)
    decreases |actions|
  {
    if actions == [] then s else RunFrom(Step(s, actions[0]), actions[1..])
  }

  ghost function Run(actions: seq<Action>): (t: System)
    ensures Inv(t)
  {
    RunFrom(INITIAL, actions)
  }

  lemma {:induction false} RunAppends(s: System, a: seq<Action>, b: seq<Action>)
    requires Inv(s)
    ensures RunFrom(s, a + b) == RunFrom(RunFrom(s, a), b)
    decreases |a|
  {
    hide Inv, Step;
    if a == [] {
      assert a + b == b;
    } else {
      assert (a + b)[1..] == a[1..] + b;
      RunAppends(Step(s, a[0]), a[1..], b);
    }
  }

  lemma RunTwo(s: System, a: Action, b: Action)
    requires Inv(s)
    ensures RunFrom(s, [a]) == Step(s, a) && RunFrom(s, [a, b]) == Step(Step(s, a), b)
  {
    hide Inv, Step;
    RunOne(s, a);
    RunOne(Step(s, a), b);
    assert [a] + [b] == [a, b];
    RunAppends(s, [a], [b]);
  }

  lemma RunOne(s: System, a: Action)
    requires Inv(s)
    ensures RunFrom(s, [a]) == Step(s, a)
  {
    hide Inv, Step;
    assert [a][1..] == [];
  }

  // First in, first out: whatever the interleaving of reads, writes, timeouts and closing, the bytes
  // that reads have taken followed by the contents are the bytes that writes have put in. While
  // the stream is open its events are set exactly when their conditions hold.
  lemma FirstInFirstOut(actions: seq<Action>)
    ensures var s := Run(actions);
      && Taken(s) + s.pipe.content == Given(s) && |s.pipe.content| <= 1024
      && (!s.pipe.closed ==> (s.pipe.available <==> s.pipe.content != []))
      && (!s.pipe.closed ==> (s.pipe.notFull <==> |s.pipe.content| < 1024))
  {
    hide Run;
    assert Inv(Run(actions));
  }

  lemma {:induction false} DeliveredAt(calls: seq<Read>, k: nat)
    requires k < |calls|
    ensures Delivered(calls[..k]) + calls[k].got <= Delivered(calls)
    decreases |calls|
  {
    var front := calls[..|calls| - 1];
    if k == |calls| - 1 {
      assert calls[..k] == front;
    } else {
      assert front[..k] == calls[..k];
      DeliveredAt(front, k);
    }
  }

  lemma {:induction false} AcceptedAt(calls: seq<Write>, k: nat)
    requires k < |calls| && calls[k].sent <= |calls[k].data|
    ensures Accepted(calls[..k]) + calls[k].data[..calls[k].sent] <= Accepted(calls)
    decreases |calls|
  {
    var front := calls[..|calls| - 1];
    if k == |calls| - 1 {
      assert calls[..k] == front;
    } else {
      assert front[..k] == calls[..k];
      AcceptedAt(front, k);
    }
  }

  lemma Slice(a: seq<Byte>, b: seq<Byte>, c: seq<Byte>)
    requires a + b <= c
    ensures |a| + |b| <= |c| && c[|a|..|a| + |b|] == b
  {
    assert c[|a|..|a| + |b|] == c[..|a| + |b|][|a|..];
    assert c[..|a| + |b|] == a + b;
  }

  // A `read` of n bytes that succeeded holds the next n bytes that were written, after those of the
  // reads before it.
  lemma ReadHoldsTheNextBytes(actions: seq<Action>, k: nat)
    requires k < |Run(actions).readLog|
    ensures var s := Run(actions);
      var r := s.readLog[k];
      var start := |Delivered(s.readLog[..k])|;
      && start + |r.got| <= |Given(s)| && Given(s)[start..start + |r.got|] == r.got
      && |r.got| <= r.size && (r.ok && !r.once ==> |r.got| == r.size)
  {
    hide Run, Delivered, Given;
    var s := Run(actions);
    assert ReadOk(s.readLog[k]);
    DeliveredAt(s.readLog, k);
    assert Delivered(s.readLog) <= Given(s);
    Slice(Delivered(s.readLog[..k]), s.readLog[k].got, Given(s));
  }

  // The bytes of a `write` that succeeded are all there, together, after those of the writes
  // before it.
  lemma WriteIsContiguous(actions: seq<Action>, k: nat)
    requires k < |Run(actions).writeLog|
    ensures var s := Run(actions);
      var w := s.writeLog[k];
      var start := |Accepted(s.writeLog[..k])|;
      && w.sent <= |w.data| && (w.ok ==> w.sent == |w.data|)
      && start + w.sent <= |Given(s)| && Given(s)[start..start + w.sent] == w.data[..w.sent]
  {
    hide Run, Accepted;
    var s := Run(actions);
    assert WriteOk(s.writeLog[k]);
    AcceptedAt(s.writeLog, k);
    assert Accepted(s.writeLog) <= Given(s);
    Slice(Accepted(s.writeLog[..k]), s.writeLog[k].data[..s.writeLog[k].sent], Given(s));
  }

  // Progress while the stream is open.

  predicate IsMove(a: Action) {
    a.ReaderWait? || a.ReaderTake? || a.WriterWait? || a.WriterPut?
  }

  ghost function ReaderWork(s: System): int {
    if !s.reader.Reading? then 0
    else (if s.reader.once then 2 else 2 * (s.reader.size - |s.reader.got|)) - if s.reader.passed then 1 else 0
  }

  ghost function WriterWork(s: System): int {
    if !s.writer.Writing? then 0
    else 2 * (|s.writer.data| - s.writer.sent) - if s.writer.passed then 1 else 0
  }

  lemma WorkIsPositive(s: System)
    requires Inv(s)
    ensures ReaderWork(s) >= 0 && WriterWork(s) >= 0
  {
  }

  // A call that has passed its wait gets closer to its end.
  lemma TakeWorks(s: System)
    requires Inv(s) && !s.pipe.closed && Enabled(s, ReaderTake)
    ensures var t := DoTake(s); t.writer == s.writer && !t.pipe.closed && ReaderWork(t) < ReaderWork(s)
  {
    hide Take, TakeSize, Fifo, EndsOk, WriterOk, PipeOk, CAPACITY;
    var room := s.reader.size - |s.reader.got|;
    TakeFacts(s.pipe, room);
    if !s.reader.once {
      TakesSome(s.pipe, room);
      assert |s.reader.got + s.pipe.content[..TakeSize(s.pipe, room)]| == |s.reader.got| + TakeSize(s.pipe, room);
    }
  }

  lemma TakesSome(p: Pipe, room: nat)
    requires PipeOk(p) && p.content != [] && room > 0
    ensures TakeSize(p, room) > 0
  {
  }

  lemma PutWorks(s: System)
    requires Inv(s) && !s.pipe.closed && Enabled(s, WriterPut)
    ensures var t := DoPut(s); t.reader == s.reader && !t.pipe.closed && WriterWork(t) < WriterWork(s)
  {
    hide Put, PutSize, Fifo, EndsOk, ReaderOk;
    PutFacts(s.pipe, s.writer.data[s.writer.sent..]);
  }

  // And it moves at least one byte, unless it is a `try_read` into an empty buffer.
  lemma MoveWorks(s: System, a: Action)
    requires Inv(s) && !s.pipe.closed && IsMove(a) && Enabled(s, a)
    ensures var t := Step(s, a);
      && !t.pipe.closed && ReaderWork(t) + WriterWork(t) < ReaderWork(s) + WriterWork(s)
      && (a == ReaderTake && |s.reader.got| < s.reader.size ==> |Taken(t)| > |Taken(s)|)
      && (a == WriterPut ==> |Given(t)| > |Given(s)|)
  {
    hide DoTake, DoPut, Fifo, EndsOk, PipeOk, ReaderOk, WriterOk, Taken, Given;
    match a {
      case ReaderTake =>
        TakeWorks(s);
        if |s.reader.got| < s.reader.size {
          TakeMoves(s);
        }
      case WriterPut =>
        PutWorks(s);
        PutMoves(s);
      case _ =>
    }
  }

  // The bytes that moved are those that the contents lost, or gained.
  lemma TakeMoves(s: System)
    requires Inv(s) && !s.pipe.closed && Enabled(s, ReaderTake) && |s.reader.got| < s.reader.size
    ensures |Taken(DoTake(s))| > |Taken(s)|
  {
    hide Take, TakeSize, EndsOk, WriterOk, PipeOk, Delivered, Accepted, CAPACITY;
    var room := s.reader.size - |s.reader.got|;
    TakeHolds(s);
    TakeFacts(s.pipe, room);
    TakesSome(s.pipe, room);
    assert Given(DoTake(s)) == Given(s);
  }

  lemma PutMoves(s: System)
    requires Inv(s) && !s.pipe.closed && Enabled(s, WriterPut)
    ensures |Given(DoPut(s))| > |Given(s)|
  {
    hide Put, PutSize, EndsOk, ReaderOk, Delivered, Accepted;
    PutHolds(s);
    PutFacts(s.pipe, s.writer.data[s.writer.sent..]);
    assert Taken(DoPut(s)) == Taken(s);
  }

  ghost predicate AllMoves(s: System, b: seq<Action>)
    requires Inv(s)
    decreases |b|
  {
    b == [] || (IsMove(b[0]) && Enabled(s, b[0]) && AllMoves(Step(s, b[0]), b[1..]))
  }

  // So a call in progress makes only so many moves, two for each byte.
  lemma {:induction false} MovesAreBounded(s: System, b: seq<Action>)
    requires Inv(s) && !s.pipe.closed && AllMoves(s, b)
    ensures var t := RunFrom(s, b);
      !t.pipe.closed && |b| + ReaderWork(t) + WriterWork(t) <= ReaderWork(s) + WriterWork(s)
    decreases |b|
  {
    hide Inv, Step, ReaderWork, WriterWork;
    if b != [] {
      MoveWorks(s, b[0]);
      MovesAreBounded(Step(s, b[0]), b[1..]);
    }
  }

  // A move is possible unless the reader, if there is one, waits for a byte, and the writer, if
  // there is one, waits for room.
  lemma CanMoveIff(s: System)
    requires Inv(s) && !s.pipe.closed
    ensures (exists a :: IsMove(a) && Enabled(s, a))
       <==> !( && (s.reader.Reading? ==> !s.reader.passed && s.pipe.content == [])
               && (s.writer.Writing? ==> !s.writer.passed && |s.pipe.content| == CAPACITY))
  {
    if s.reader.Reading? && (s.reader.passed || s.pipe.content != []) {
      var a := if s.reader.passed then ReaderTake else ReaderWait;
      assert IsMove(a) && Enabled(s, a);
    }
    if s.writer.Writing? && (s.writer.passed || |s.pipe.content| < CAPACITY) {
      var a := if s.writer.passed then WriterPut else WriterWait;
      assert IsMove(a) && Enabled(s, a);
    }
  }

  // A reader and a writer never wait for each other: left to themselves on an open stream they
  // move until one of them is done.
  lemma OneOfTwoFinishes(s: System, b: seq<Action>)
    requires Inv(s) && !s.pipe.closed && AllMoves(s, b)
    requires forall a :: IsMove(a) ==> !Enabled(RunFrom(s, b), a)
    ensures |b| <= ReaderWork(s) + WriterWork(s)
    ensures RunFrom(s, b).reader.NoReader? || RunFrom(s, b).writer.NoWriter?
  {
    hide RunFrom, AllMoves, ReaderWork, WriterWork;
    MovesAreBounded(s, b);
    WorkIsPositive(RunFrom(s, b));
    CanMoveIff(RunFrom(s, b));
  }

  // A reader on a closed stream.

  // It waits for a byte that the stream does not have.
  predicate Starved(s: System) {
    s.pipe.closed && !s.pipe.available && s.reader.Reading? && !s.reader.passed
  }

  // Nobody closes the stream, and the read is not dropped and does not time out.
  predicate Peaceful(b: seq<Action>) {
    Close !in b && DropReader !in b
  }

  // A `read` that took the last bytes of a closed stream and wants more waits on, instead of failing.
  lemma ShortReadStarves(s: System)
    requires Inv(s) && s.pipe.closed && Enabled(s, ReaderTake) && !s.reader.once
    ensures Starved(Step(s, ReaderTake))
       <==> 0 < TakeSize(s.pipe, s.reader.size - |s.reader.got|) == |s.pipe.content| < s.reader.size - |s.reader.got|
  {
    hide EndsOk, Fifo;
  }

  lemma StarvedStep(s: System, a: Action)
    requires Inv(s) && Starved(s) && s.writer.NoWriter? && a != Close && a != DropReader
    ensures Starved(Step(s, a)) && Step(s, a).writer.NoWriter?
  {
    hide EndsOk, Fifo;
  }

  lemma {:induction false} StarvedLasts(s: System, b: seq<Action>)
    requires Inv(s) && Starved(s) && s.writer.NoWriter? && Peaceful(b)
    ensures Starved(RunFrom(s, b))
    decreases |b|
  {
    hide Inv, Step, Starved;
    if b != [] {
      assert b[0] in b;
      StarvedStep(s, b[0]);
      StarvedLasts(Step(s, b[0]), b[1..]);
    }
  }

  lemma PutFeeds(s: System)
    requires Inv(s) && Starved(s) && s.writer.Writing?
    ensures exists b :: Peaceful(b) && !Starved(RunFrom(s, b))
  {
    hide Inv, Step, RunFrom, Starved;
    if s.writer.passed {
      RunTwo(s, WriterPut, Close);
      PutWakes(s);
      assert Peaceful([WriterPut]) && !Starved(RunFrom(s, [WriterPut]));
    } else {
      RunTwo(s, WriterWait, WriterPut);
      WaitPasses(s);
      PutWakes(Step(s, WriterWait));
      assert Peaceful([WriterWait, WriterPut]) && !Starved(RunFrom(s, [WriterWait, WriterPut]));
    }
  }

  lemma WaitPasses(s: System)
    requires Inv(s) && Starved(s) && s.writer.Writing? && !s.writer.passed
    ensures var t := Step(s, WriterWait); Starved(t) && t.writer.Writing? && t.writer.passed
  {
    hide EndsOk, Fifo;
  }

  lemma PutWakes(s: System)
    requires Inv(s) && Starved(s) && s.writer.Writing? && s.writer.passed
    ensures !Starved(Step(s, WriterPut))
  {
    hide EndsOk, Fifo;
  }

  // Unless the stream is closed once more, or the read is dropped or times out, it waits for ever if
  // and only if no writer had passed the test for a closed stream before.
  lemma StarvesForeverIff(s: System)
    requires Inv(s) && Starved(s)
    ensures (forall b :: Peaceful(b) ==> Starved(RunFrom(s, b))) <==> s.writer.NoWriter?
  {
    hide RunFrom, Starved, Peaceful, Inv;
    if s.writer.NoWriter? {
      forall b | Peaceful(b)
        ensures Starved(RunFrom(s, b))
      {
        StarvedLasts(s, b);
      }
    } else {
      PutFeeds(s);
    }
  }

  // A further close ends it: the read fails.
  lemma FurtherCloseBreaks(s: System)
    requires Inv(s) && Starved(s) && !s.reader.once
    ensures RunFrom(s, [Close, ReaderWait, ReaderTake]).readLog
         == s.readLog + [Read(s.reader.size, false, s.reader.got, false)]
  {
    hide EndsOk, Fifo, RunFrom;
    var t := Step(Step(s, Close), ReaderWait);
    assert [Close, ReaderWait, ReaderTake] == [Close, ReaderWait] + [ReaderTake];
    RunAppends(s, [Close, ReaderWait], [ReaderTake]);
    RunTwo(s, Close, ReaderWait);
    RunTwo(t, ReaderTake, Close);
    assert s.reader.got + s.pipe.content[..0] == s.reader.got;
  }

  // One undisturbed poll is a run of the reader's, or of the writer's, own steps.

  predicate ReaderSteps(b: seq<Action>) {
    forall i :: 0 <= i < |b| ==> b[i] == ReaderWait || b[i] == ReaderTake
  }

  // What the poll of a `read` leaves.
  function ReadPolled(s: System): System
    requires PipeOk(s.pipe) && s.reader.Reading? && |s.reader.got| <= s.reader.size
  {
    var (outcome, bytes, q) := PollRead(s.pipe, s.reader.size - |s.reader.got|);
    var got := s.reader.got + bytes;
    var t := s.(pipe := q);
    match outcome
    case Done => EndRead(t, got, true)
    case Broken => EndRead(t, got, false)
    case Blocked => t.(reader := s.reader.(got := got))
  }

  // The poll begins with one wait and one move.
  lemma ReadPollStep(s: System)
    requires Inv(s) && s.reader.Reading? && !s.reader.once && !s.reader.passed && s.pipe.available
    ensures var t := DoTake(s.(reader := s.reader.(passed := true)));
      && (t.reader.Reading? ==> |t.reader.got| <= t.reader.size && PipeOk(t.pipe))
      && ReadPolled(s) == if t.reader.Reading? then ReadPolled(t) else t
  {
    hide EndsOk, Fifo, TakeSize, Take, WriterOk;
    var room := s.reader.size - |s.reader.got|;
    var n := TakeSize(s.pipe, room);
    MovesAreOk(s.pipe, room, []);
    var (first, got) := (s.pipe.content[..n], s.reader.got);
    var rest := PollRead(Take(s.pipe, room), room - n);
    Associative(got, first, rest.1);
    assert first + [] == first && got + [] == got;
    assert n == 0 ==> first == [];
    assert |got + first| == |got| + n;
  }

  lemma {:induction false} PollReadIsARun(s: System) returns (b: seq<Action>)
    requires Inv(s) && s.reader.Reading? && !s.reader.once && !s.reader.passed
    ensures ReaderSteps(b) && RunFrom(s, b) == ReadPolled(s)
    decreases s.reader.size - |s.reader.got|
  {
    hide EndsOk, Fifo, TakeSize, Take, RunFrom, PipeOk;
    if !s.pipe.available {
      b := [];
      assert s.reader.got + [] == s.reader.got;
      RunNone(s);
    } else {
      var t := Step(Step(s, ReaderWait), ReaderTake);
      RunTwo(s, ReaderWait, ReaderTake);
      ReadPollStep(s);
      b := [ReaderWait, ReaderTake];
      if t.reader.Reading? {
        var c := PollReadIsARun(t);
        RunAppends(s, b, c);
        b := b + c;
      }
    }
  }

  lemma RunNone(s: System)
    requires Inv(s)
    ensures RunFrom(s, []) == s
  {
  }

  predicate WriterSteps(b: seq<Action>) {
    forall i :: 0 <= i < |b| ==> b[i] == WriterWait || b[i] == WriterPut
  }

  function WritePolled(s: System): System
    requires PipeOk(s.pipe) && s.writer.Writing? && s.writer.sent <= |s.writer.data|
  {
    var (outcome, sent, q) := PollWrite(s.pipe, s.writer.data[s.writer.sent..]);
    var t := s.(pipe := q);
    if outcome == Done then EndWrite(t, s.writer.sent + sent, true)
    else t.(writer := s.writer.(sent := s.writer.sent + sent))
  }

  lemma WritePollStep(s: System)
    requires Inv(s) && s.writer.Writing? && !s.writer.passed && s.pipe.notFull
    ensures var t := DoPut(s.(writer := s.writer.(passed := true)));
      && (t.writer.Writing? ==> t.writer.sent <= |t.writer.data| && PipeOk(t.pipe))
      && (t.writer.Writing? ==> t.writer.data == s.writer.data && t.writer.sent >= s.writer.sent)
      && (t.writer.Writing? && t.writer.sent == s.writer.sent ==> !t.pipe.notFull)
      && WritePolled(s) == if t.writer.Writing? then WritePolled(t) else t
  {
    hide EndsOk, Fifo, PutSize, Put, ReaderOk;
    var rest := s.writer.data[s.writer.sent..];
    var n := PutSize(s.pipe, rest);
    MovesAreOk(s.pipe, 0, rest);
    PutResets(s.pipe, rest);
    assert s.writer.data[s.writer.sent + n..] == rest[n..];
    var after := PollWrite(Put(s.pipe, rest), rest[n..]);
    assert PollWrite(s.pipe, rest) == (after.0, n + after.1, after.2);
    if |rest| == n {
      assert rest[n..] == [];
      assert after == (Done, 0, Put(s.pipe, rest));
    }
  }

  // A move that sends nothing resets the event.
  lemma PutResets(p: Pipe, data: seq<Byte>)
    requires PipeOk(p) && data != []
    ensures PutSize(p, data) > 0 || !Put(p, data).notFull
  {
  }

  lemma {:induction false} PollWriteIsARun(s: System) returns (b: seq<Action>)
    requires Inv(s) && s.writer.Writing? && !s.writer.passed
    ensures WriterSteps(b) && RunFrom(s, b) == WritePolled(s)
    decreases |s.writer.data| - s.writer.sent, s.pipe.notFull
  {
    hide EndsOk, Fifo, PutSize, Put, RunFrom, PipeOk;
    if !s.pipe.notFull {
      b := [];
      RunNone(s);
    } else {
      var t := Step(Step(s, WriterWait), WriterPut);
      RunTwo(s, WriterWait, WriterPut);
      WritePollStep(s);
      b := [WriterWait, WriterPut];
      if t.writer.Writing? {
        var c := PollWriteIsARun(t);
        RunAppends(s, b, c);
        b := b + c;
      }
    }
  }

  // What a call of `read` that is left to itself comes to. What the stream holds can be read, also after
  // it was closed; a closed stream without bytes breaks the call; otherwise it waits for the rest.
  lemma ReadAnswers(s: System, size: nat) returns (b: seq<Action>)
    requires Inv(s) && s.reader.NoReader? && size > 0
    ensures ReaderSteps(b)
    ensures var (w, t) := (s.pipe.content, RunFrom(s, [StartRead(size, false)] + b));
      && t.pipe.closed == s.pipe.closed && t.pipe.content == w[Min(size, |w|)..]
      && if size <= |w| then t.reader.NoReader? && t.readLog == s.readLog + [Read(size, false, w[..size], true)]
         else if s.pipe.closed && w == []
         then t.reader.NoReader? && t.readLog == s.readLog + [Read(size, false, [], false)]
         else t.reader == Reading(size, false, w, false) && t.readLog == s.readLog
  {
    hide EndsOk, Fifo, WriterOk, RunFrom, PollRead, ReaderSteps;
    var u := Step(s, StartRead(size, false));
    RunOne(s, StartRead(size, false));
    if u.reader.NoReader? {
      b := [];
      NoSteps();
      assert [StartRead(size, false)] + b == [StartRead(size, false)];
    } else {
      b := PollReadIsARun(u);
      RunAppends(s, [StartRead(size, false)], b);
      PollReadFacts(u.pipe, size);
      var bytes := PollRead(u.pipe, size).1;
      assert [] + bytes == bytes;
      assert bytes == s.pipe.content[..|bytes|] && PollRead(u.pipe, size).2.content == s.pipe.content[|bytes|..];
    }
  }

  lemma NoSteps()
    ensures ReaderSteps([]) && WriterSteps([])
  {
  }

  // What a call of `write` that is left to itself comes to.
  lemma WriteAnswers(s: System, data: seq<Byte>) returns (b: seq<Action>)
    requires Inv(s) && s.writer.NoWriter? && data != []
    ensures WriterSteps(b)
    ensures var (room, t) := (CAPACITY - |s.pipe.content|, RunFrom(s, [StartWrite(data)] + b));
      if s.pipe.closed then t == s.(writeLog := s.writeLog + [Write(data, 0, false)])
      else
        && t.pipe.content == s.pipe.content + data[..Min(|data|, room)]
        && if |data| <= room then t.writer.NoWriter? && t.writeLog == s.writeLog + [Write(data, |data|, true)]
           else t.writer == Writing(data, room, false) && t.writeLog == s.writeLog
  {
    hide EndsOk, Fifo, ReaderOk, RunFrom, PollWrite, WriterSteps;
    var u := Step(s, StartWrite(data));
    RunOne(s, StartWrite(data));
    if s.pipe.closed {
      b := [];
      NoSteps();
      assert [StartWrite(data)] + b == [StartWrite(data)];
    } else {
      b := PollWriteIsARun(u);
      RunAppends(s, [StartWrite(data)], b);
      assert u.writer.data[u.writer.sent..] == data;
      PollWriteFacts(u.pipe, data);
      assert data[..|data|] == data;
    }
  }

  // Closing lets every call that waits go on.
  lemma CloseWakesBoth(s: System)
    requires Inv(s)
    ensures var t := Step(s, Close);
      && t.pipe.closed && t.pipe.content == s.pipe.content && t.reader == s.reader && t.writer == s.writer
      && (s.reader.Reading? && !s.reader.passed ==> Enabled(t, ReaderWait))
      && (s.writer.Writing? && !s.writer.passed ==> Enabled(t, WriterWait))
  {
  }

  // But a `write` that waits for room is not told: unless a reader makes room, or the write is dropped or
  // times out, it goes on waiting, closed or not.
  lemma {:induction false} FullStreamHoldsTheWriter(s: System, b: seq<Action>)
    requires Inv(s) && s.writer.Writing? && |s.pipe.content| == CAPACITY
    requires ReaderTake !in b && DropWriter !in b
    ensures var t := RunFrom(s, b);
      && t.writer.Writing? && t.writer.data == s.writer.data && t.writer.sent == s.writer.sent
      && t.pipe.content == s.pipe.content && t.writeLog == s.writeLog
    decreases |b|
  {
    hide Inv, Step;
    if b != [] {
      assert b[0] in b;
      FullStep(s, b[0]);
      FullStreamHoldsTheWriter(Step(s, b[0]), b[1..]);
    }
  }

  lemma FullStep(s: System, a: Action)
    requires Inv(s) && s.writer.Writing? && |s.pipe.content| == CAPACITY
    requires a != ReaderTake && a != DropWriter
    ensures var t := Step(s, a);
      && t.writer.Writing? && t.writer.data == s.writer.data && t.writer.sent == s.writer.sent
      && t.pipe.content == s.pipe.content && t.writeLog == s.writeLog
  {
    hide EndsOk, Fifo, ReaderOk;
  }
}

module BufferPipes {
  import opened Bytes
  import opened BufferPipeSpec
  import System = BufferPipeSystem

  // The bytes in the ring `b`, from `head` on and around its end.
  function Window(b: seq<Byte>, head: nat, amount: nat): (w: seq<Byte>)
    requires |b| == CAPACITY && head < CAPACITY && amount <= CAPACITY
    ensures |w| == amount
  {
    if head + amount <= CAPACITY then b[head..head + amount] else b[head..] + b[..head + amount - CAPACITY]
  }

  // Removing from the front.
  lemma WindowDrop(b: seq<Byte>, head: nat, amount: nat, n: nat)
    requires |b| == CAPACITY && head < CAPACITY && n <= amount <= CAPACITY && head + n <= CAPACITY
    ensures Window(b, head, amount)[..n] == b[head..head + n]
    ensures Window(b, Wrap(head + n), amount - n) == Window(b, head, amount)[n..]
  {
    if head + amount > CAPACITY {
      DropWrapped(b, head, n, b[..head + amount - CAPACITY]);
    }
  }

  lemma DropWrapped(b: seq<Byte>, head: nat, n: nat, tail: seq<Byte>)
    requires head + n <= |b|
    ensures (b[head..] + tail)[..n] == b[head..head + n]
    ensures (b[head..] + tail)[n..] == b[head + n..] + tail
  {
  }

  // Adding at the back.
  lemma WindowAppend(b: seq<Byte>, head: nat, amount: nat, data: seq<Byte>)
    requires |b| == CAPACITY && head < CAPACITY && amount + |data| <= CAPACITY
    requires Wrap(head + amount) + |data| <= CAPACITY
    ensures var free := Wrap(head + amount);
      Window(b[..free] + data + b[free + |data|..], head, amount + |data|) == Window(b, head, amount) + data
  {
    hide Window;
    var free := Wrap(head + amount);
    var c := b[..free] + data + b[free + |data|..];
    if head + amount < CAPACITY {
      AppendStraight(b, head, free, data);
      WindowStraight(c, head, amount + |data|);
      WindowStraight(b, head, amount);
    } else {
      AppendWrapped(b, head, free, data);
      Associative(b[head..], b[..free], data);
      WindowWraps(c, head, amount + |data|);
      WindowWraps(b, head, amount);
    }
  }

  lemma WindowStraight(b: seq<Byte>, head: nat, amount: nat)
    requires |b| == CAPACITY && head < CAPACITY && head + amount <= CAPACITY
    ensures Window(b, head, amount) == b[head..head + amount]
  {
  }

  lemma WindowWraps(b: seq<Byte>, head: nat, amount: nat)
    requires |b| == CAPACITY && head < CAPACITY && CAPACITY - head <= amount <= CAPACITY
    ensures Window(b, head, amount) == b[head..] + b[..head + amount - CAPACITY]
  {
    if head + amount == CAPACITY {
      assert b[..0] == [];
    }
  }

  lemma AppendStraight(b: seq<Byte>, head: nat, free: nat, data: seq<Byte>)
    requires head <= free && free + |data| <= |b|
    ensures (b[..free] + data + b[free + |data|..])[head..free + |data|] == b[head..free] + data
  {
  }

  lemma AppendWrapped(b: seq<Byte>, head: nat, free: nat, data: seq<Byte>)
    requires free + |data| <= head <= |b|
    ensures var c := b[..free] + data + b[free + |data|..];
      c[head..] == b[head..] && c[..free + |data|] == b[..free] + data
  {
  }

  class BufferStream {
    const buffer: array<Byte>
    var head: nat
    var amount: nat
    var available: bool
    var notFull: bool
    var closed: bool

    ghost predicate Valid()
      reads this, buffer
    {
      buffer.Length == CAPACITY && head < CAPACITY && amount <= CAPACITY && PipeOk(Value())
    }

    ghost function Value(): Pipe
      reads this, buffer
      requires buffer.Length == CAPACITY && head < CAPACITY && amount <= CAPACITY
    {
      Pipe(head, Window(buffer[..], head, amount), available, notFull, closed)
    }

    constructor ()
      ensures Valid() && Value() == EMPTY && fresh(buffer)
    {
      buffer := new Byte[CAPACITY](_ => 0);
      head, amount, available, notFull, closed := 0, 0, false, true, false;
    }

    method UpdateEvents()
      requires buffer.Length == CAPACITY && head < CAPACITY && amount <= CAPACITY
      modifies this`available, this`notFull
      ensures Value() == Events(old(Value()))
    {
      if amount > 0 {
        available := true;
      } else {
        available := false;
      }
      if amount == CAPACITY {
        notFull := false;
      } else {
        notFull := true;
      }
    }

    // The part of `try_read` that holds the lock: moves bytes up to the end of the ring.
    method TakeBytes(into: array<Byte>, at: nat) returns (moved: nat)
      requires Valid() && at <= into.Length && into != buffer
      modifies this, into
      ensures Valid() && Value() == Take(old(Value()), into.Length - at)
      ensures moved == TakeSize(old(Value()), into.Length - at)
      ensures into[at..at + moved] == old(Value()).content[..moved] && into[..at] == old(into[..at])
    {
      hide Window, PipeOk, Take, TakeSize;
      MovesAreOk(Value(), into.Length - at, []);
      TakeIs(Value(), into.Length - at);
      var end := Min(head + amount, CAPACITY);
      moved := Min(end - head, into.Length - at);
      if moved > 0 {
        MoveOut(into, at, moved);
      }
      UpdateEvents();
    }

    // Copies `n` bytes out and moves the head past them.
    method MoveOut(into: array<Byte>, at: nat, n: nat)
      requires buffer.Length == CAPACITY && head + n <= CAPACITY && 0 < n <= amount <= CAPACITY
      requires at + n <= into.Length && into != buffer
      modifies this`head, this`amount, into
      ensures head < CAPACITY && head == Wrap(old(head) + n) && amount == old(amount) - n
      ensures Value().content == old(Value()).content[n..] && into[at..at + n] == old(Value()).content[..n]
      ensures into[..at] == old(into[..at])
    {
      hide Window;
      WindowDrop(buffer[..], head, amount, n);
      WrapIsModulo(head + n);
      assert buffer[..][head..head + n] == buffer[head..head + n];
      CopyInto(into, at, buffer[head..head + n]);
      head := (head + n) % CAPACITY;
      amount := amount - n;
    }

    // The part of `write` that holds the lock.
    method PutBytes(data: seq<Byte>) returns (moved: nat)
      requires Valid()
      modifies this, buffer
      ensures Valid() && Value() == Put(old(Value()), data) && moved == PutSize(old(Value()), data)
    {
      hide Window, PipeOk;
      MovesAreOk(Value(), 0, data);
      var freeHead := (head + amount) % CAPACITY;
      var freeAmount := CAPACITY - amount;
      var freeEnd := Min(freeHead + freeAmount, CAPACITY);
      moved := Min(|data|, freeEnd - freeHead);
      WrapIsModulo(head + amount);
      MoveIn(freeHead, data[..moved]);
      UpdateEvents();
    }

    // Copies bytes into the free part, behind the contents.
    method MoveIn(freeHead: nat, data: seq<Byte>)
      requires buffer.Length == CAPACITY && head < CAPACITY && amount + |data| <= CAPACITY
      requires freeHead == Wrap(head + amount) && freeHead + |data| <= CAPACITY
      modifies this`amount, buffer
      ensures amount == old(amount) + |data| && Value().content == old(Value()).content + data
    {
      hide Window;
      ghost var before := buffer[..];
      CopyInto(buffer, freeHead, data);
      ghost var after := buffer[..];
      assert after == after[..freeHead] + after[freeHead..freeHead + |data|] + after[freeHead + |data|..];
      assert after == before[..freeHead] + data + before[freeHead + |data|..];
      WindowAppend(before, head, amount, data);
      amount := amount + |data|;
    }

    // A poll of `read` that has moved `at` bytes before: it moves bytes until it is done, fails, or
    // has to wait.
    method PollReadInto(into: array<Byte>, at: nat) returns (r: Outcome, moved: nat)
      requires Valid() && at <= into.Length && into != buffer
      modifies this, into
      ensures Valid() && moved <= into.Length - at && into[..at] == old(into[..at])
      ensures (r, into[at..at + moved], Value()) == PollRead(old(Value()), into.Length - at)
    {
      hide Window, Take, TakeSize, PollRead, PipeOk;
      ghost var goal := PollRead(Value(), into.Length - at);
      var readLen := at;
      assert into[at..at] == [] && [] + goal.1 == goal.1;
      while readLen < into.Length
        invariant Valid() && at <= readLen <= into.Length && into[..at] == old(into[..at])
        invariant var rest := PollRead(Value(), into.Length - readLen);
          goal == (rest.0, into[at..readLen] + rest.1, rest.2)
        decreases into.Length - readLen
      {
        ghost var front := into[at..readLen];
        PollReadUnfolds(Value(), into.Length - readLen, front);
        if !available {
          return Blocked, readLen - at;
        }
        var len := TakeBytes(into, readLen);
        assert into[at..readLen] == into[..readLen][at..] == front;
        if len == 0 {
          return Broken, readLen - at;
        }
        assert into[at..readLen + len] == front + into[readLen..readLen + len];
        readLen := readLen + len;
      }
      PollReadUnfolds(Value(), 0, into[at..readLen]);
      return Done, readLen - at;
    }

    // The first poll of `read`.
    method Read(into: array<Byte>) returns (r: Outcome, moved: nat)
      requires Valid() && into != buffer
      modifies this, into
      ensures Valid() && moved <= into.Length
      ensures if old(closed && !available) then r == Broken && moved == 0 && Value() == old(Value())
        else (r, into[..moved], Value()) == PollRead(old(Value()), into.Length)
    {
      hide Window, PollRead;
      if closed && !available {
        return Broken, 0;
      }
      r, moved := PollReadInto(into, 0);
      assert into[0..0 + moved] == into[..moved];
    }

    // A poll of `try_read`.
    method TryRead(into: array<Byte>) returns (r: Outcome, moved: nat)
      requires Valid() && into != buffer
      modifies this, into
      ensures Valid() && moved <= into.Length && (r == Done <==> old(available))
      ensures r == Broken <==> old(closed && !available)
      ensures if old(available)
        then moved == TakeSize(old(Value()), into.Length) && Value() == Take(old(Value()), into.Length)
          && into[..moved] == old(Value()).content[..moved]
        else Value() == old(Value()) && moved == 0
    {
      hide Window, Take, TakeSize;
      if closed && !available {
        return Broken, 0;
      }
      if !available {
        return Blocked, 0;
      }
      moved := TakeBytes(into, 0);
      assert into[0..0 + moved] == into[..moved];
      r := Done;
    }

    // A poll of `write` with `data` still to send. The test for a closed stream is made only once,
    // when the call starts.
    method PollWriteFrom(data: seq<Byte>) returns (r: Outcome, sent: nat)
      requires Valid()
      modifies this, buffer
      ensures Valid() && (r, sent, Value()) == PollWrite(old(Value()), data)
    {
      hide Window, Put, PutSize;
      ghost var goal := PollWrite(Value(), data);
      var rest := data;
      sent := 0;
      while rest != []
        invariant Valid() && sent <= |data| && rest == data[sent..]
        invariant var r := PollWrite(Value(), rest); goal == (r.0, sent + r.1, r.2)
        decreases |rest|, notFull
      {
        if !notFull {
          return Blocked, sent;
        }
        System.PutResets(Value(), rest);
        var moved := PutBytes(rest);
        sent := sent + moved;
        rest := rest[moved..];
      }
      return Done, sent;
    }

    // The first poll of `write`.
    method Write(data: seq<Byte>) returns (r: Outcome, sent: nat)
      requires Valid()
      modifies this, buffer
      ensures Valid()
      ensures if old(closed) then r == Broken && sent == 0 && Value() == old(Value())
        else (r, sent, Value()) == PollWrite(old(Value()), data)
    {
      hide Window, PollWrite;
      if closed {
        return Broken, 0;
      }
      r, sent := PollWriteFrom(data);
    }

    // `shutdown` and `close`.
    method Close()
      requires Valid()
      modifies this`closed, this`available, this`notFull
      ensures Valid() && Value() == Shut(old(Value()))
      ensures closed && available && notFull && Value().content == old(Value()).content
    {
      closed := true;
      available := true;
      notFull := true;
    }
  }

  // For example a reader that asks a closed stream for two bytes when one is left.
  method ShortReadFromClosedStream() returns (r: Outcome)
    ensures r == Blocked
  {
    hide PollRead, PollWrite, Window;
    var stream := new BufferStream();
    PollWriteFacts(EMPTY, [7]);
    var _, _ := stream.Write([7]);
    assert |stream.Value().content| == 1;
    stream.Close();
    var into := new Byte[2](_ => 0);
    PollReadFacts(stream.Value(), 2);
    var outcome, _ := stream.Read(into);
    return outcome;
  }
}
