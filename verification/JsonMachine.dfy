// The tokenizer as a pushdown machine on values: one pass of its loop, a run of the loop
// with a visitor that may suspend it, and a `drive` call with the sticky failure.
module JsonMachine {
  import opened Bytes
  import opened JsonError
  import opened JsonGrammar
  import opened JsonScan

  const MAX_DEPTH: nat := 256

  datatype State =
    | Start | Done
    | ObjectFirstKey | ObjectNextKey | ObjectValue | ObjectComma
    | ArrayFirstValue | ArrayNextValue | ArrayComma

  // The open containers are listed outermost first; `true` stands for an array.
  datatype Config = Config(offset: nat, state: State, stack: seq<bool>)

  const INITIAL: Config := Config(0, Start, [])

  // The result of one pass of the loop.
  datatype Step =
    | Advanced(next: Config, token: Option<Token>)
    | Finished(next: Config)
    | Failed(next: Config, error: Error)

  // `Start` and `Done` have no open container; every other state has one of its own kind on
  // top, and never more than MAX_DEPTH in all.
  predicate StackMatches(state: State, stack: seq<bool>) {
    && |stack| <= MAX_DEPTH
    && match state
       case Start => stack == []
       case Done => stack == []
       case ObjectFirstKey => |stack| > 0 && !stack[|stack| - 1]
       case ObjectNextKey => |stack| > 0 && !stack[|stack| - 1]
       case ObjectValue => |stack| > 0 && !stack[|stack| - 1]
       case ObjectComma => |stack| > 0 && !stack[|stack| - 1]
       case ArrayFirstValue => |stack| > 0 && stack[|stack| - 1]
       case ArrayNextValue => |stack| > 0 && stack[|stack| - 1]
       case ArrayComma => |stack| > 0 && stack[|stack| - 1]
  }

  predicate Consistent(s: seq<Byte>, c: Config) {
    c.offset <= |s| && StackMatches(c.state, c.stack)
  }

  // A pass that moves on moves the cursor forward; one that fails leaves it in the input.
  predicate Progress(s: seq<Byte>, c: Config, r: Step) {
    && !r.Finished?
    && (r.Advanced? ==> Consistent(s, r.next) && c.offset < r.next.offset)
    && (r.Failed? ==> Consistent(s, r.next) && c.offset <= r.next.offset && r.error.offset <= |s|)
  }

  function AfterValue(stack: seq<bool>): State {
    if stack == [] then Done else if stack[|stack| - 1] then ArrayComma else ObjectComma
  }

  // The saturating decrement of the depth.
  function Pop(stack: seq<bool>): seq<bool> {
    if stack == [] then [] else stack[..|stack| - 1]
  }

  function Fail(c: Config, kind: ErrorKind): Step {
    Failed(c, Error(kind, c.offset))
  }

  // The value that ends at `q` is complete.
  function Complete(c: Config, q: nat, token: Token): Step {
    Advanced(Config(q, AfterValue(c.stack), c.stack), Some(token))
  }

  function Close(c: Config, token: Token): Step {
    Advanced(Config(c.offset + 1, AfterValue(Pop(c.stack)), Pop(c.stack)), Some(token))
  }

  function Open(c: Config, isArray: bool): Step {
    if |c.stack| >= MAX_DEPTH then Fail(c, DepthExceeded)
    else Advanced(Config(c.offset + 1, if isArray then ArrayFirstValue else ObjectFirstKey, c.stack + [isArray]),
                  Some(if isArray then ArrayStart else ObjectStart))
  }

  function ScanKey(s: seq<Byte>, c: Config): (r: Step)
    requires Consistent(s, c) && c.offset < |s| && (c.state == ObjectFirstKey || c.state == ObjectNextKey)
    ensures Progress(s, c, r)
  {
    if s[c.offset] != QUOTE then Fail(c, ExpectedKey)
    else
      match ScanBody(s, c.offset + 1, false)
      case Err(e) => Failed(c, e)
      case Ok((end, escaped)) =>
        var q := SkipWs(s, end + 1);
        if q == |s| || s[q] != COLON then Fail(c.(offset := q), ExpectedColon)
        else
          var name := s[c.offset + 1..end];
          Advanced(Config(q + 1, ObjectValue, c.stack), Some(if escaped then EscapeKey(name) else Key(name)))
  }

  function ScanLiteral(s: seq<Byte>, c: Config, word: seq<Byte>, token: Token): (r: Step)
    requires Consistent(s, c) && c.offset < |s| && |word| > 0
    ensures Progress(s, c, r)
  {
    var end := c.offset + |word|;
    if end > |s| then Fail(c, UnexpectedEof)
    else if s[c.offset..end] == word then Complete(c, end, token)
    else Fail(c, UnexpectedByte)
  }

  function ScanString(s: seq<Byte>, c: Config): (r: Step)
    requires Consistent(s, c) && c.offset < |s|
    ensures Progress(s, c, r)
  {
    match ScanBody(s, c.offset + 1, false)
    case Err(e) => Failed(c, e)
    case Ok((end, escaped)) =>
      var text := s[c.offset + 1..end];
      Complete(c, end + 1, if escaped then EscapeStringToken(text) else StringToken(text))
  }

  function ScanValue(s: seq<Byte>, c: Config): (r: Step)
    requires Consistent(s, c) && c.offset < |s|
    ensures Progress(s, c, r)
  {
    var b := s[c.offset];
    if b == LBRACE then Open(c, false)
    else if b == LBRACKET then Open(c, true)
    else if b == QUOTE then ScanString(s, c)
    else if b == 0x74 then ScanLiteral(s, c, TRUE_TEXT, BooleanToken(true))
    else if b == 0x66 then ScanLiteral(s, c, FALSE_TEXT, BooleanToken(false))
    else if b == 0x6E then ScanLiteral(s, c, NULL_TEXT, NullToken)
    else if b == MINUS || Digit(b) then
      match ScanNumber(s, c.offset)
      case Err(e) => Failed(c, e)
      case Ok(end) => Complete(c, end, NumberToken(s[c.offset..end]))
    else Fail(c, UnexpectedByte)
  }

  // What one pass does at the byte that follows the whitespace.
  function PassAt(s: seq<Byte>, c: Config): (r: Step)
    requires Consistent(s, c) && c.offset < |s|
    ensures Progress(s, c, r)
  {
    var b := s[c.offset];
    match c.state
    case Done => Fail(c, TrailingData)
    case Start => ScanValue(s, c)
    case ObjectValue => ScanValue(s, c)
    case ArrayNextValue => ScanValue(s, c)
    case ArrayFirstValue => if b == RBRACKET then Close(c, ArrayEnd) else ScanValue(s, c)
    case ObjectFirstKey => if b == RBRACE then Close(c, ObjectEnd) else ScanKey(s, c)
    case ObjectNextKey => ScanKey(s, c)
    case ObjectComma =>
      if b == COMMA then Advanced(Config(c.offset + 1, ObjectNextKey, c.stack), None)
      else if b == RBRACE then Close(c, ObjectEnd)
      else Fail(c, UnexpectedByte)
    case ArrayComma =>
      if b == COMMA then Advanced(Config(c.offset + 1, ArrayNextValue, c.stack), None)
      else if b == RBRACKET then Close(c, ArrayEnd)
      else Fail(c, UnexpectedByte)
  }

  // One pass of the loop. It keeps the machine consistent, and it either moves the cursor
  // forward or ends the run.
  function Pass(s: seq<Byte>, c: Config): (r: Step)
    requires Consistent(s, c)
    ensures r.Advanced? ==> Consistent(s, r.next) && c.offset < r.next.offset
    ensures r.Finished? ==> Consistent(s, r.next) && r.next.offset == |s| && c.state == r.next.state == Done
    ensures r.Failed? ==> Consistent(s, r.next) && c.offset <= r.next.offset && r.error.offset <= |s|
  {
    var d := c.(offset := SkipWs(s, c.offset));
    if d.offset == |s| then
      if d.state == Done then Finished(d) else Fail(d, UnexpectedEof)
    else PassAt(s, d)
  }

  datatype Ending = Suspended | Completed | Rejected(error: Error)

  // Where a run stops, the tokens the visitor has seen by then, and why it stopped.
  datatype Outcome = Outcome(next: Config, seen: seq<Token>, ending: Ending)

  // A visitor is any rule that decides from the tokens seen so far whether to suspend.
  type StopRule = seq<Token> -> bool

  const NEVER: StopRule := (seen: seq<Token>) => false

  // The loop of `run`.
  function Run(s: seq<Byte>, c: Config, stops: StopRule, seen: seq<Token>): (r: Outcome)
    requires Consistent(s, c)
    ensures Consistent(s, r.next) && c.offset <= r.next.offset
    ensures r.ending.Suspended? ==> c.offset < r.next.offset
    ensures r.ending.Rejected? ==> r.ending.error.offset <= |s|
    ensures seen <= r.seen
    decreases |s| - c.offset
  {
    match Pass(s, c)
    case Finished(d) => Outcome(d, seen, Completed)
    case Failed(d, e) => Outcome(d, seen, Rejected(e))
    case Advanced(d, None) => Run(s, d, stops, seen)
    case Advanced(d, Some(t)) =>
      if stops(seen + [t]) then Outcome(d, seen + [t], Suspended)
      else Run(s, d, stops, seen + [t])
  }

  // The whole tokenizer: the machine and the failure it has reported.
  datatype Machine = Machine(config: Config, failure: Option<Error>)

  const FRESH: Machine := Machine(INITIAL, None)

  datatype Driven = Driven(machine: Machine, seen: seq<Token>, ending: Ending)

  // One call of `drive`.
  function Drive(s: seq<Byte>, m: Machine, stops: StopRule, seen: seq<Token>): Driven
    requires Consistent(s, m.config)
  {
    match m.failure
    case Some(e) => Driven(m, seen, Rejected(e))
    case None =>
      var r := Run(s, m.config, stops, seen);
      match r.ending
      case Rejected(e) => Driven(Machine(r.next, Some(e)), r.seen, r.ending)
      case _ => Driven(Machine(r.next, None), r.seen, r.ending)
  }

  // `drive` is called again for as long as the visitor suspends it.
  function DriveAgain(s: seq<Byte>, m: Machine, stops: StopRule, seen: seq<Token>): Driven
    requires Consistent(s, m.config)
    decreases |s| - m.config.offset
  {
    var d := Drive(s, m, stops, seen);
    if d.ending.Suspended? then DriveAgain(s, d.machine, stops, d.seen) else d
  }

  // A document that the tokenizer accepts, and the tokens it reports for it.
  predicate Accepts(s: seq<Byte>, tokens: seq<Token>) {
    var d := Drive(s, FRESH, NEVER, []);
    d.ending == Completed && d.seen == tokens
  }

  // However often the visitor suspends, the calls together report the same tokens and end
  // in the same state and with the same result as one call that is never suspended.
  lemma {:induction false} SuspensionIsTransparent(s: seq<Byte>, m: Machine, stops: StopRule, seen: seq<Token>)
    requires Consistent(s, m.config)
    ensures DriveAgain(s, m, stops, seen) == Drive(s, m, NEVER, seen)
    decreases |s| - m.config.offset
  {
    if m.failure.None? {
      SuspendedRunResumes(s, m.config, stops, seen);
      var d := Drive(s, m, stops, seen);
      if d.ending.Suspended? {
        SuspensionIsTransparent(s, d.machine, stops, d.seen);
      }
    }
  }

  // A suspended run, resumed, is the uninterrupted run.
  lemma {:induction false} SuspendedRunResumes(s: seq<Byte>, c: Config, stops: StopRule, seen: seq<Token>)
    requires Consistent(s, c)
    ensures var r := Run(s, c, stops, seen);
      if r.ending.Suspended? then Run(s, r.next, NEVER, r.seen) == Run(s, c, NEVER, seen)
      else r == Run(s, c, NEVER, seen)
    decreases |s| - c.offset
  {
    match Pass(s, c)
    case Finished(_) =>
    case Failed(_, _) =>
    case Advanced(d, None) => SuspendedRunResumes(s, d, stops, seen);
    case Advanced(d, Some(t)) =>
      if !stops(seen + [t]) {
        SuspendedRunResumes(s, d, stops, seen + [t]);
      }
  }

  // A run is suspended exactly behind the first token at which the visitor asks for it.
  lemma {:induction false} SuspendsWhenAsked(s: seq<Byte>, c: Config, stops: StopRule, seen: seq<Token>)
    requires Consistent(s, c)
    ensures var r := Run(s, c, stops, seen);
      && (forall k :: |seen| < k < |r.seen| ==> !stops(r.seen[..k]))
      && (|r.seen| > |seen| ==> (r.ending.Suspended? <==> stops(r.seen)))
      && (r.ending.Suspended? ==> |r.seen| > |seen|)
    decreases |s| - c.offset
  {
    hide Pass;
    match Pass(s, c)
    case Finished(_) =>
    case Failed(_, _) =>
    case Advanced(d, None) => SuspendsWhenAsked(s, d, stops, seen);
    case Advanced(d, Some(t)) =>
      if !stops(seen + [t]) {
        SuspendsWhenAsked(s, d, stops, seen + [t]);
        var r := Run(s, d, stops, seen + [t]);
        assert r.seen[..|seen| + 1] == seen + [t];
        assert |r.seen| == |seen| + 1 ==> r.seen == seen + [t];
      }
  }

  // After a call that failed, and after one that completed, every further call with any
  // visitor gives the same answer, reports nothing, and moves nothing.
  lemma EndIsStable(s: seq<Byte>, m: Machine, stops: StopRule, seen: seq<Token>, again: StopRule, more: seq<Token>)
    requires Consistent(s, m.config)
    ensures var d := Drive(s, m, stops, seen);
      !d.ending.Suspended? ==> Drive(s, d.machine, again, more) == Driven(d.machine, more, d.ending)
  {
    var d := Drive(s, m, stops, seen);
    if d.ending == Completed {
      CompletedConfig(s, m.config, stops, seen);
      SkipWsUnique(s, |s|, |s|);
    }
  }

  lemma {:induction false} CompletedConfig(s: seq<Byte>, c: Config, stops: StopRule, seen: seq<Token>)
    requires Consistent(s, c) && Run(s, c, stops, seen).ending == Completed
    ensures Run(s, c, stops, seen).next == Config(|s|, Done, [])
    decreases |s| - c.offset
  {
    match Pass(s, c)
    case Finished(_) =>
    case Failed(_, _) =>
    case Advanced(d, None) => CompletedConfig(s, d, stops, seen);
    case Advanced(d, Some(t)) =>
      if !stops(seen + [t]) {
        CompletedConfig(s, d, stops, seen + [t]);
      }
  }

  // The cursor of a `drive` call never moves back and never leaves the input, no matter how
  // the call ends, and an error is reported at a position of the input.
  lemma DriveIsMonotone(s: seq<Byte>, m: Machine, stops: StopRule, seen: seq<Token>)
    requires Consistent(s, m.config) && (m.failure.Some? ==> m.failure.value.offset <= |s|)
    ensures var d := Drive(s, m, stops, seen);
      && m.config.offset <= d.machine.config.offset <= |s|
      && Consistent(s, d.machine.config)
      && (d.machine.failure.Some? ==>
            d.machine.failure.value.offset <= |s| && d.ending == Rejected(d.machine.failure.value))
  {
  }
}
