// Every string that the tokenizer reports is one that the escape decoder can read.
module JsonTokens {
  import opened Bytes
  import opened Utf8
  import opened JsonError
  import opened JsonGrammar
  import opened JsonScan
  import opened JsonMachine
  import opened EscapeSpec
  import D = EscapeDecode

  predicate IsText(t: Token) {
    t.Key? || t.EscapeKey? || t.StringToken? || t.EscapeStringToken?
  }

  // The body of a string: with a buffer of its own length or more it decodes to the text that
  // its code units stand for, or fails with `LoneSurrogate` exactly when they stand for none.
  ghost predicate Decodes(raw: seq<Byte>) {
    && WellFormed(raw) && WellEscaped(raw)
    && forall capacity: nat :: |raw| <= capacity ==> DecodesIn(raw, D.Fill(raw, 0, 0, capacity))
  }

  ghost predicate DecodesIn(raw: seq<Byte>, r: Result<seq<Byte>, Error>)
    requires WellEscaped(raw)
  {
    && (r.Ok? <==> Paired(raw))
    && (r.Ok? ==> WellFormed(r.value) && Utf16All(Chars(r.value)) == CodeUnits(raw))
    && (r.Err? ==> r.error.kind == LoneSurrogate)
  }

  // A reported token: its body decodes, it is reported as escaped exactly when it holds an escape
  // sequence, and otherwise it is its own decoding.
  ghost predicate Sound(t: Token) {
    IsText(t) ==>
      && Decodes(t.raw)
      && (t.EscapeKey? || t.EscapeStringToken? <==> BACKSLASH in t.raw)
      && (BACKSLASH !in t.raw ==> D.Fill(t.raw, 0, 0, |t.raw|) == Ok(t.raw))
  }

  ghost predicate AllSound(seen: seq<Token>) {
    forall i :: 0 <= i < |seen| ==> Sound(seen[i])
  }

  lemma BodyDecodes(us: Body)
    requires ValidBody(us) && WellFormed(BodyText(us))
    ensures Decodes(BodyText(us))
  {
    hide WellFormed, WellEscaped, D.Fill, CodeUnits, BodyText;
    var raw := BodyText(us);
    BodyIsWellEscaped(us);
    forall capacity: nat | |raw| <= capacity
      ensures DecodesIn(raw, D.Fill(raw, 0, 0, capacity))
    {
      D.ReportedBodyDecodes(us, capacity);
    }
  }

  lemma {:induction false} EscapedHasBackslash(us: Body)
    requires ValidBody(us)
    ensures Escaped(us) <==> BACKSLASH in BodyText(us)
  {
    if us != [] {
      EscapedHasBackslash(us[1..]);
      assert [us[0]] + us[1..] == us;
      EscapedCons(us[0], us[1..]);
    }
  }

  // A body without escape sequences decodes to itself.
  lemma {:induction false} PlainDecodes(raw: seq<Byte>, offset: nat, written: nat, capacity: nat)
    requires WellFormed(raw) && BACKSLASH !in raw && written + |raw| <= capacity
    ensures D.Fill(raw, offset, written, capacity) == Ok(raw)
    decreases |raw|
  {
    hide CharLen, Decode, Encode;
    if raw != [] {
      assert raw[0] in raw;
      var n := CharLen(raw);
      EncodeDecode(raw);
      assert raw == raw[..n] + raw[n..];
      PlainDecodes(raw[n..], offset + n, written + n, capacity);
    }
  }

  // What is between two quotes of a well-formed text is well-formed.
  lemma BetweenQuotes(s: seq<Byte>, open: nat, close: nat)
    requires WellFormed(s) && open < close < |s| && s[open] == QUOTE && s[close] == QUOTE
    ensures WellFormed(s[open + 1..close])
  {
    hide WellFormed;
    BoundaryAfterAscii(s, close);
    SplitAt(s, close);
    var front := s[..close];
    BoundaryAfterAscii(front, open);
    SplitAt(front, open + 1);
    assert front[open + 1..] == s[open + 1..close];
  }

  lemma ScannedIsSound(s: seq<Byte>, open: nat, t: Token)
    requires WellFormed(s) && open < |s| && s[open] == QUOTE && ScanBody(s, open + 1, false).Ok?
    requires var (close, escaped) := ScanBody(s, open + 1, false).value;
      IsText(t) && t.raw == s[open + 1..close] && (t.EscapeKey? || t.EscapeStringToken? <==> escaped)
    ensures Sound(t)
  {
    hide WellFormed, Decodes, D.Fill, ScanBody, BodyText, Escaped;
    var us := ScanBodySound(s, open + 1, false);
    BetweenQuotes(s, open, ScanBody(s, open + 1, false).value.0);
    BodyDecodes(us);
    EscapedHasBackslash(us);
    if BACKSLASH !in t.raw {
      PlainDecodes(t.raw, 0, 0, |t.raw|);
    }
  }

  lemma PassIsSound(s: seq<Byte>, c: Config)
    requires WellFormed(s) && Consistent(s, c) && Pass(s, c).Advanced? && Pass(s, c).token.Some?
    ensures Sound(Pass(s, c).token.value)
  {
    hide WellFormed, Sound, ScanBody, ScanNumber, SkipWs, StackMatches, AfterValue, Pop;
    var d := c.(offset := SkipWs(s, c.offset));
    var t := Pass(s, c).token.value;
    if IsText(t) {
      ScannedIsSound(s, d.offset, t);
    } else {
      NotText(t);
    }
  }

  lemma NotText(t: Token)
    requires !IsText(t)
    ensures Sound(t)
  {
  }

  // All the tokens of a run, however it ends.
  lemma {:induction false} RunIsSound(s: seq<Byte>, c: Config, stops: StopRule, seen: seq<Token>)
    requires WellFormed(s) && Consistent(s, c) && AllSound(seen)
    ensures AllSound(Run(s, c, stops, seen).seen)
    decreases |s| - c.offset
  {
    hide WellFormed, Sound, Pass;
    match Pass(s, c) {
      case Finished(_) =>
      case Failed(_, _) =>
      case Advanced(d, None) => RunIsSound(s, d, stops, seen);
      case Advanced(d, Some(t)) =>
        PassIsSound(s, c);
        if !stops(seen + [t]) {
          RunIsSound(s, d, stops, seen + [t]);
        }
    }
  }

  // Every call of `drive` on a well-formed text, from any configuration and with any visitor,
  // whether it completes, is suspended or fails, reports only strings that decode.
  lemma ReportedTokensDecode(s: seq<Byte>, m: Machine, stops: StopRule)
    requires WellFormed(s) && Consistent(s, m.config)
    ensures AllSound(Drive(s, m, stops, []).seen)
  {
    hide WellFormed, Sound, Run;
    if m.failure.None? {
      RunIsSound(s, m.config, stops, []);
    }
  }
}
