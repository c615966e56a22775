// The tokenizer object: a cursor, a grammar state, and a bitmap of the open containers,
// updated in place by the scan loops.
module Bitmap {
  const WORDS: nat := 4

  // Whether bit `j` of a word is set.
  predicate Bit(w: bv64, j: bv6) {
    (w >> j) & 1 == 1
  }

  lemma SetBit(w: bv64, k: bv6, j: bv6)
    ensures Bit(w | (1 << k), j) == (j == k || Bit(w, j))
  {
  }

  lemma ClearBit(w: bv64, k: bv6, j: bv6)
    ensures Bit(w & !(1 << k), j) == (j != k && Bit(w, j))
  {
  }

  // The number of a level inside its word.
  function Shift(level: nat): bv6 {
    (level % 64) as bv6
  }

  lemma ShiftValue(level: nat)
    ensures Shift(level) as int == level % 64
  {
  }

  // The open containers, outermost first, that the first `depth` bits stand for.
  function Levels(words: seq<bv64>, depth: nat): (r: seq<bool>)
    requires |words| == WORDS && depth <= WORDS * 64
    ensures |r| == depth
  {
    seq(depth, level requires 0 <= level < depth => Bit(words[level / 64], Shift(level)))
  }

  // A word with the bit `k` written.
  function Write(w: bv64, k: bv6, isArray: bool): bv64 {
    if isArray then w | (1 << k) else w & !(1 << k)
  }

  lemma WriteBit(w: bv64, k: bv6, isArray: bool, j: bv6)
    ensures Bit(Write(w, k, isArray), j) == if j == k then isArray else Bit(w, j)
  {
    hide Bit;
    SetBit(w, k, j);
    ClearBit(w, k, j);
  }

  lemma ShiftsDiffer(level: nat, depth: nat)
    requires level < depth && level / 64 == depth / 64
    ensures Shift(level) != Shift(depth)
  {
    hide Shift;
    ShiftValue(level);
    ShiftValue(depth);
  }

  // Writing the bit of level `depth` leaves every lower level as it was, whatever stale bits
  // earlier pops have left behind.
  lemma {:induction false} PushLevel(words: seq<bv64>, depth: nat, isArray: bool)
    requires |words| == WORDS && depth < WORDS * 64
    ensures var i := depth / 64;
      Levels(words[i := Write(words[i], Shift(depth), isArray)], depth + 1) == Levels(words, depth) + [isArray]
  {
    hide Bit, Shift, Write;
    var i := depth / 64;
    var after := words[i := Write(words[i], Shift(depth), isArray)];
    forall level | 0 <= level <= depth
      ensures Levels(after, depth + 1)[level] == (Levels(words, depth) + [isArray])[level]
    {
      WriteBit(words[i], Shift(depth), isArray, Shift(level));
      if level < depth && level / 64 == i {
        ShiftsDiffer(level, depth);
      }
    }
  }

  // Dropping the last level needs no write.
  lemma PopLevel(words: seq<bv64>, depth: nat)
    requires |words| == WORDS && 0 < depth <= WORDS * 64
    ensures Levels(words, depth - 1) == Levels(words, depth)[..depth - 1]
  {
  }
}

module Tokenizer {
  import opened Bytes
  import Utf8
  import opened Bitmap
  import opened JsonError
  import opened JsonGrammar
  import Scan = JsonScan
  import M = JsonMachine

  // A visitor keeps what it is told and suspends the scan by its own rule.
  class Visitor {
    const stops: M.StopRule
    var seen: seq<Token>

    constructor (stops: M.StopRule)
      ensures this.stops == stops && seen == []
    {
      this.stops := stops;
      seen := [];
    }

    method Report(token: Token) returns (stop: bool)
      modifies this
      ensures seen == old(seen) + [token] && stop == stops(seen)
    {
      seen := seen + [token];
      stop := stops(seen);
    }
  }

  // What a scan method has done when its machine step is `step`: the new configuration, the
  // tokens the visitor has now seen, and the returned value (`Ok(true)` when suspended).
  ghost predicate Performed(step: M.Step, conf: M.Config, before: seq<Token>, after: seq<Token>, stops: M.StopRule,
      r: Result<bool, Error>) {
    match step
    case Finished(_) => false
    case Failed(next, e) => conf == next && after == before && r == Err(e)
    case Advanced(next, None) => conf == next && after == before && r == Ok(false)
    case Advanced(next, Some(t)) => conf == next && after == before + [t] && r == Ok(stops(after))
  }

  class Tokenizer {
    const input: seq<Byte>
    var offset: nat
    var state: M.State
    const words: array<bv64>
    var depth: nat
    var failure: Option<Error>

    ghost predicate Valid()
      reads this, words
    {
      && words.Length == WORDS && depth <= M.MAX_DEPTH
      && Utf8.WellFormed(input)
      && M.Consistent(input, Conf())
    }

    ghost function Conf(): M.Config
      requires words.Length == WORDS && depth <= M.MAX_DEPTH
      reads this, words
    {
      M.Config(offset, state, Levels(words[..], depth))
    }

    ghost function Machine(): M.Machine
      requires Valid()
      reads this, words
    {
      M.Machine(Conf(), failure)
    }

    constructor (input: seq<Byte>)
      requires Utf8.WellFormed(input)
      ensures Valid() && fresh(words) && this.input == input && Machine() == M.FRESH
    {
      this.input := input;
      offset := 0;
      state := M.Start;
      words := new bv64[WORDS](_ => 0);
      depth := 0;
      failure := None;
    }

    // One call of the machine's `Drive`. A recorded failure is returned without touching anything.
    method Drive(visitor: Visitor) returns (r: Result<bool, Error>)
      requires Valid()
      modifies this`offset, this`state, this`depth, this`failure, words, visitor
      ensures Valid()
      ensures var d := M.Drive(input, old(Machine()), visitor.stops, old(visitor.seen));
        && Machine() == d.machine && visitor.seen == d.seen
        && r == match d.ending
                case Suspended => Ok(true)
                case Completed => Ok(false)
                case Rejected(e) => Err(e)
    {
      if failure.Some? {
        return Err(failure.value);
      }
      r := Run(visitor);
      if r.Err? {
        failure := Some(r.error);
      }
    }

    method SkipWhitespace() returns (byte: Option<Byte>)
      requires Valid()
      modifies this`offset
      ensures Valid() && Conf() == old(Conf()).(offset := Scan.SkipWs(input, old(offset)))
      ensures byte == if offset < |input| then Some(input[offset]) else None
    {
      while offset < |input|
        invariant old(offset) <= offset <= |input|
        invariant Scan.SkipWs(input, offset) == Scan.SkipWs(input, old(offset))
      {
        var b := input[offset];
        if b > 0x20 {
          return Some(b);
        }
        if b == 0x20 || b == 0x09 || b == 0x0A || b == 0x0D {
          offset := offset + 1;
        } else {
          return Some(b);
        }
      }
      return None;
    }

    // The stack of container kinds grows by one, or is full and stays as it is.
    method Push(isArray: bool) returns (r: Result<(), Error>)
      requires Valid()
      modifies this`depth, words
      ensures words.Length == WORDS && depth <= M.MAX_DEPTH
      ensures if |old(Conf()).stack| >= M.MAX_DEPTH then r == Err(Error(DepthExceeded, offset)) && Conf() == old(Conf())
              else r.Ok? && Conf() == old(Conf()).(stack := old(Conf()).stack + [isArray])
    {
      hide Write, Shift, Levels, M.StackMatches, Utf8.WellFormed;
      if depth >= M.MAX_DEPTH {
        return Err(Error(DepthExceeded, offset));
      }
      var word := depth / 64;
      PushLevel(words[..], depth, isArray);
      ghost var before := words[..];
      words[word] := Write(words[word], Shift(depth), isArray);
      assert words[..] == before[word := words[word]];
      depth := depth + 1;
      return Ok(());
    }

    method InArray() returns (r: bool)
      requires words.Length == WORDS && depth <= M.MAX_DEPTH
      ensures var stack := Levels(words[..], depth);
        r == (stack != [] && stack[|stack| - 1])
    {
      if depth == 0 {
        return false;
      }
      var level := depth - 1;
      r := (words[level / 64] >> Shift(level)) & 1 == 1;
    }

    method AfterValue()
      requires words.Length == WORDS && depth <= M.MAX_DEPTH
      modifies this`state
      ensures Conf() == old(Conf()).(state := M.AfterValue(old(Conf()).stack))
    {
      if depth == 0 {
        state := M.Done;
      } else {
        var isArray := InArray();
        state := if isArray then M.ArrayComma else M.ObjectComma;
      }
    }

    // The decrement saturates in the code; it is exact because the stack is never empty here.
    method CloseContainer()
      requires Valid() && offset < |input| && Conf().stack != []
      modifies this`offset, this`depth, this`state
      ensures Valid() && Conf() == M.Close(old(Conf()), ArrayEnd).next && depth + 1 == old(depth)
    {
      PopLevel(words[..], depth);
      offset := offset + 1;
      depth := SaturatingSub(depth, 1);
      AfterValue();
    }

    method Run(visitor: Visitor) returns (r: Result<bool, Error>)
      requires Valid()
      modifies this`offset, this`state, this`depth, words, visitor
      ensures Valid()
      ensures var o := M.Run(input, old(Conf()), visitor.stops, old(visitor.seen));
        && Conf() == o.next && visitor.seen == o.seen
        && r == match o.ending
                case Suspended => Ok(true)
                case Completed => Ok(false)
                case Rejected(e) => Err(e)
    {
      while true
        invariant Valid()
        invariant M.Run(input, Conf(), visitor.stops, visitor.seen)
               == M.Run(input, old(Conf()), visitor.stops, old(visitor.seen))
        decreases |input| - offset
      {
        ghost var c, seen := Conf(), visitor.seen;
        var byte := SkipWhitespace();
        if byte.None? {
          return if state == M.Done then Ok(false) else Err(Error(UnexpectedEof, offset));
        }
        r := PassAt(byte.value, visitor);
        assert M.Pass(input, c) == M.PassAt(input, c.(offset := Scan.SkipWs(input, c.offset)));
        if r.Err? || r.value {
          return;
        }
      }
    }

    // The match on the grammar state in the loop of `run`.
    method PassAt(byte: Byte, visitor: Visitor) returns (r: Result<bool, Error>)
      requires Valid() && offset < |input| && byte == input[offset]
      modifies this`offset, this`state, this`depth, words, visitor
      ensures Valid()
      ensures Performed(M.PassAt(input, old(Conf())), Conf(), old(visitor.seen), visitor.seen, visitor.stops, r)
    {
      hide Levels, Utf8.WellFormed, M.ScanValue, M.ScanKey;
      match state {
        case Done =>
          return Err(Error(TrailingData, offset));
        case Start =>
          r := ScanValue(byte, visitor);
        case ObjectValue =>
          r := ScanValue(byte, visitor);
        case ArrayNextValue =>
          r := ScanValue(byte, visitor);
        case ArrayFirstValue =>
          if byte == RBRACKET {
            CloseContainer();
            var stop := visitor.Report(ArrayEnd);
            return Ok(stop);
          }
          r := ScanValue(byte, visitor);
        case ObjectFirstKey =>
          if byte == RBRACE {
            CloseContainer();
            var stop := visitor.Report(ObjectEnd);
            return Ok(stop);
          }
          r := ScanKey(byte, visitor);
        case ObjectNextKey =>
          r := ScanKey(byte, visitor);
        case ObjectComma =>
          if byte == COMMA {
            offset := offset + 1;
            state := M.ObjectNextKey;
            return Ok(false);
          } else if byte == RBRACE {
            CloseContainer();
            var stop := visitor.Report(ObjectEnd);
            return Ok(stop);
          }
          return Err(Error(UnexpectedByte, offset));
        case ArrayComma =>
          if byte == COMMA {
            offset := offset + 1;
            state := M.ArrayNextValue;
            return Ok(false);
          } else if byte == RBRACKET {
            CloseContainer();
            var stop := visitor.Report(ArrayEnd);
            return Ok(stop);
          }
          return Err(Error(UnexpectedByte, offset));
      }
    }

    // The states before a member name. The visitor sees the name only once the colon is there.
    method ScanKey(byte: Byte, visitor: Visitor) returns (r: Result<bool, Error>)
      requires Valid() && offset < |input| && byte == input[offset]
      requires state == M.ObjectFirstKey || state == M.ObjectNextKey
      modifies this`offset, this`state, visitor
      ensures Valid()
      ensures Performed(M.ScanKey(input, old(Conf())), Conf(), old(visitor.seen), visitor.seen, visitor.stops, r)
    {
      hide Scan.ScanBody, Scan.SkipWs, Levels, Utf8.WellFormed;
      if byte != QUOTE {
        return Err(Error(ExpectedKey, offset));
      }
      var scanned := ScanString();
      if scanned.Err? {
        return Err(scanned.error);
      }
      var (name, escaped) := scanned.value;
      var next := SkipWhitespace();
      if next != Some(COLON) {
        return Err(Error(ExpectedColon, offset));
      }
      offset := offset + 1;
      state := M.ObjectValue;
      var stop := visitor.Report(if escaped then EscapeKey(name) else Key(name));
      return Ok(stop);
    }

    // The states before a value. Brackets change the stack, everything else is a scalar.
    method ScanValue(byte: Byte, visitor: Visitor) returns (r: Result<bool, Error>)
      requires Valid() && offset < |input| && byte == input[offset]
      modifies this`offset, this`state, this`depth, words, visitor
      ensures Valid()
      ensures Performed(M.ScanValue(input, old(Conf())), Conf(), old(visitor.seen), visitor.seen, visitor.stops, r)
    {
      hide Levels, Utf8.WellFormed, M.ScanString, M.ScanLiteral, Scan.ScanNumber;
      var token;
      if byte == LBRACE || byte == LBRACKET {
        var pushed := Push(byte == LBRACKET);
        if pushed.Err? {
          return Err(pushed.error);
        }
        offset := offset + 1;
        state := if byte == LBRACKET then M.ArrayFirstValue else M.ObjectFirstKey;
        token := if byte == LBRACKET then ArrayStart else ObjectStart;
      } else {
        var scanned := ScanScalar(byte);
        if scanned.Err? {
          return Err(scanned.error);
        }
        token := scanned.value;
      }
      var stop := visitor.Report(token);
      return Ok(stop);
    }

    // The arms of `scan_value` for strings, keywords and numbers.
    method ScanScalar(byte: Byte) returns (r: Result<Token, Error>)
      requires Valid() && offset < |input| && byte == input[offset] && byte != LBRACE && byte != LBRACKET
      modifies this`offset, this`state
      ensures Valid()
      ensures var step := M.ScanValue(input, old(Conf()));
        && Conf() == step.next
        && (step.Failed? ==> r == Err(step.error))
        && (!step.Failed? ==> step.Advanced? && step.token.Some? && r == Ok(step.token.value))
    {
      hide Scan.ScanBody, Scan.ScanNumber, Levels, Utf8.WellFormed;
      if byte == QUOTE {
        var scanned := ScanString();
        if scanned.Err? {
          return Err(scanned.error);
        }
        var (text, escaped) := scanned.value;
        AfterValue();
        return Ok(if escaped then EscapeStringToken(text) else StringToken(text));
      } else if byte == 0x74 || byte == 0x66 || byte == 0x6E {
        var word := if byte == 0x74 then TRUE_TEXT else if byte == 0x66 then FALSE_TEXT else NULL_TEXT;
        var scanned := ScanLiteral(word);
        if scanned.Err? {
          return Err(scanned.error);
        }
        AfterValue();
        return Ok(if byte == 0x6E then NullToken else BooleanToken(byte == 0x74));
      } else if byte == MINUS || 0x30 <= byte <= 0x39 {
        var scanned := ScanNumber();
        if scanned.Err? {
          return Err(scanned.error);
        }
        AfterValue();
        return Ok(NumberToken(scanned.value));
      }
      return Err(Error(UnexpectedByte, offset));
    }

    // A keyword that is cut short by the end of the input is told apart from a misspelt one.
    method ScanLiteral(word: seq<Byte>) returns (r: Result<(), Error>)
      requires Valid() && offset < |input|
      modifies this`offset
      ensures var end := old(offset) + |word|;
        if end > |input| then r == Err(Error(UnexpectedEof, old(offset))) && Conf() == old(Conf())
        else if input[old(offset)..end] == word then r.Ok? && Conf() == old(Conf()).(offset := end)
        else r == Err(Error(UnexpectedByte, old(offset))) && Conf() == old(Conf())
    {
      var end := offset + |word|;
      if end <= |input| {
        if input[offset..end] == word {
          offset := end;
          return Ok(());
        }
        return Err(Error(UnexpectedByte, offset));
      }
      return Err(Error(UnexpectedEof, offset));
    }

    // On failure the configuration is unchanged. The slice is never refused, because both its ends
    // are next to an ASCII byte of well-formed text.
    method ScanString() returns (r: Result<(seq<Byte>, bool), Error>)
      requires Valid() && offset < |input| && input[offset] == QUOTE
      modifies this`offset
      ensures words.Length == WORDS && depth <= M.MAX_DEPTH
      ensures match Scan.ScanBody(input, old(offset) + 1, false)
        case Err(e) => r == Err(e) && Conf() == old(Conf())
        case Ok((end, escaped)) =>
          r == Ok((input[old(offset) + 1..end], escaped)) && Conf() == old(Conf()).(offset := end + 1)
    {
      hide Scan.ValidateEscape, Levels, Utf8.WellFormed, M.StackMatches;
      var start := offset + 1;
      var cursor := start;
      var escaped := false;
      while true
        invariant start <= cursor <= |input|
        invariant Scan.ScanBody(input, cursor, escaped) == Scan.ScanBody(input, start, false)
        decreases |input| - cursor
      {
        while cursor < |input|
          invariant start <= cursor <= |input|
          invariant Scan.ScanBody(input, cursor, escaped) == Scan.ScanBody(input, start, false)
        {
          var b := input[cursor];
          if b == QUOTE || b == BACKSLASH || b < 0x20 {
            break;
          }
          cursor := cursor + 1;
        }
        if cursor == |input| {
          return Err(Error(UnterminatedString, cursor));
        } else if input[cursor] == QUOTE {
          break;
        } else if input[cursor] == BACKSLASH {
          escaped := true;
          var next := Scan.ValidateEscape(input, cursor);
          if next.Err? {
            return Err(next.error);
          }
          cursor := next.value;
        } else {
          return Err(Error(ControlCharacter, cursor));
        }
      }
      Utf8.BoundaryAfterAscii(input, offset);
      Utf8.BoundaryAfterAscii(input, cursor);
      var body := Utf8.Get(input, start, cursor);
      if body.None? {
        assert false;
      }
      offset := cursor + 1;
      return Ok((body.value, escaped));
    }

    // The result of `ScanNumber`, found by one cursor in one pass.
    method NumberEnd(start: nat) returns (r: Result<nat, Error>)
      requires start < |input|
      ensures r == Scan.ScanNumber(input, start)
    {
      hide Scan.ScanWhole, Scan.SkipDigits;
      var cursor := start;
      if input[cursor] == MINUS {
        cursor := cursor + 1;
      }
      var whole := WholeEnd(cursor);
      if whole.Err? {
        return whole;
      }
      cursor := whole.value;
      if cursor < |input| && input[cursor] == DOT {
        cursor := cursor + 1;
        var after := SkipDigits(cursor);
        if after == cursor {
          return Err(Error(InvalidNumber, cursor));
        }
        cursor := after;
      }
      if cursor < |input| && (input[cursor] == 0x65 || input[cursor] == 0x45) {
        cursor := cursor + 1;
        if cursor < |input| && (input[cursor] == PLUS || input[cursor] == MINUS) {
          cursor := cursor + 1;
        }
        var after := SkipDigits(cursor);
        if after == cursor {
          return Err(Error(InvalidNumber, cursor));
        }
        cursor := after;
      }
      return Ok(cursor);
    }

    method WholeEnd(start: nat) returns (r: Result<nat, Error>)
      requires start <= |input|
      ensures r == Scan.ScanWhole(input, start)
    {
      var cursor := start;
      if cursor == |input| {
        return Err(Error(UnexpectedEof, cursor));
      } else if input[cursor] == ZERO {
        cursor := cursor + 1;
        if cursor < |input| && Digit(input[cursor]) {
          return Err(Error(InvalidNumber, cursor));
        }
      } else if Digit(input[cursor]) {
        cursor := SkipDigits(cursor);
      } else {
        return Err(Error(InvalidNumber, cursor));
      }
      return Ok(cursor);
    }

    // On failure the configuration is unchanged. All bytes of the slice are ASCII, so it is never
    // refused.
    method ScanNumber() returns (r: Result<seq<Byte>, Error>)
      requires Valid() && offset < |input| && (input[offset] == MINUS || Digit(input[offset]))
      modifies this`offset
      ensures words.Length == WORDS && depth <= M.MAX_DEPTH
      ensures match Scan.ScanNumber(input, old(offset))
        case Err(e) => r == Err(e) && Conf() == old(Conf())
        case Ok(end) => r == Ok(input[old(offset)..end]) && Conf() == old(Conf()).(offset := end)
    {
      hide Scan.ScanNumber, Utf8.WellFormed, Levels, M.StackMatches;
      var start := offset;
      var end := NumberEnd(start);
      if end.Err? {
        return Err(end.error);
      }
      var cursor := end.value;
      Scan.NumberEndsDigit(input, start);
      Utf8.BoundaryAfterAscii(input, start);
      Utf8.BoundaryAfterAscii(input, cursor - 1);
      var text := Utf8.Get(input, start, cursor);
      if text.None? {
        assert false;
      }
      offset := cursor;
      return Ok(text.value);
    }

    method SkipDigits(from: nat) returns (cursor: nat)
      requires from <= |input|
      ensures cursor == Scan.SkipDigits(input, from)
    {
      cursor := from;
      while cursor < |input| && Digit(input[cursor])
        invariant from <= cursor <= |input|
        invariant Scan.SkipDigits(input, cursor) == Scan.SkipDigits(input, from)
      {
        cursor := cursor + 1;
      }
    }
  }
}
