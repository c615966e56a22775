// What the token scanners of the tokenizer compute, and that they recognise exactly the
// lexical grammar of RFC 8259.
module JsonError {
  datatype ErrorKind =
    | UnexpectedEof | UnexpectedByte | TrailingData | InvalidNumber | UnterminatedString
    | ControlCharacter | InvalidEscape | ExpectedKey | ExpectedColon | DepthExceeded
    | LoneSurrogate | BufferTooSmall

  datatype Error = Error(kind: ErrorKind, offset: nat)
}

module JsonScan {
  import opened Bytes
  import opened JsonError
  import opened JsonGrammar

  // The end of the whitespace that starts at `p`.
  function SkipWs(s: seq<Byte>, p: nat): (q: nat)
    requires p <= |s|
    ensures p <= q <= |s|
    decreases |s| - p
  {
    if p < |s| && Ws(s[p]) then SkipWs(s, p + 1) else p
  }

  lemma {:induction false} SkipWsRange(s: seq<Byte>, p: nat)
    requires p <= |s|
    ensures AllWs(s[p..SkipWs(s, p)])
    ensures SkipWs(s, p) < |s| ==> !Ws(s[SkipWs(s, p)])
    decreases |s| - p
  {
    if p < |s| && Ws(s[p]) {
      SkipWsRange(s, p + 1);
      var q := SkipWs(s, p + 1);
      assert s[p..q] == [s[p]] + s[p + 1..q];
    }
  }

  // The end of the digits that start at `p`.
  function SkipDigits(s: seq<Byte>, p: nat): (q: nat)
    requires p <= |s|
    ensures p <= q <= |s|
    decreases |s| - p
  {
    if p < |s| && Digit(s[p]) then SkipDigits(s, p + 1) else p
  }

  lemma {:induction false} SkipDigitsRange(s: seq<Byte>, p: nat)
    requires p <= |s|
    ensures AllDigits(s[p..SkipDigits(s, p)])
    ensures SkipDigits(s, p) < |s| ==> !Digit(s[SkipDigits(s, p)])
    decreases |s| - p
  {
    if p < |s| && Digit(s[p]) {
      SkipDigitsRange(s, p + 1);
      var q := SkipDigits(s, p + 1);
      assert s[p..q] == [s[p]] + s[p + 1..q];
    }
  }

  lemma SkipWsUnique(s: seq<Byte>, p: nat, q: nat)
    requires p <= q <= |s| && AllWs(s[p..q])
    requires q < |s| ==> !Ws(s[q])
    ensures SkipWs(s, p) == q
  {
    var r := SkipWs(s, p);
    SkipWsRange(s, p);
    assert forall i :: p <= i < q ==> s[i] == s[p..q][i - p];
    assert forall i :: p <= i < r ==> s[i] == s[p..r][i - p];
  }

  lemma SkipDigitsUnique(s: seq<Byte>, p: nat, q: nat)
    requires p <= q <= |s| && AllDigits(s[p..q])
    requires q < |s| ==> !Digit(s[q])
    ensures SkipDigits(s, p) == q
  {
    var r := SkipDigits(s, p);
    SkipDigitsRange(s, p);
    assert forall i :: p <= i < q ==> s[i] == s[p..q][i - p];
    assert forall i :: p <= i < r ==> s[i] == s[p..r][i - p];
  }

  // The end of the escape sequence whose backslash is at `p`.
  function ValidateEscape(s: seq<Byte>, p: nat): (r: Result<nat, Error>)
    requires p < |s|
    ensures r.Ok? ==> p < r.value <= |s|
    ensures r.Err? ==> r.error.offset <= |s|
  {
    if p + 1 >= |s| then Err(Error(UnterminatedString, p + 1))
    else if SimpleEscape(s[p + 1]) then Ok(p + 2)
    else if s[p + 1] == 0x75 then
      if p + 6 > |s| then Err(Error(InvalidEscape, p))
      else if forall i :: p + 2 <= i < p + 6 ==> HexDigit(s[i]) then Ok(p + 6)
      else Err(Error(InvalidEscape, p))
    else Err(Error(InvalidEscape, p))
  }

  // The position of the closing quote of the string body that continues at `p`, and whether
  // an escape sequence was seen (`escaped` tells if one was seen before `p`).
  function ScanBody(s: seq<Byte>, p: nat, escaped: bool): (r: Result<(nat, bool), Error>)
    requires p <= |s|
    ensures r.Ok? ==> p <= r.value.0 < |s|
    ensures r.Err? ==> r.error.offset <= |s|
    decreases |s| - p
  {
    if p == |s| then Err(Error(UnterminatedString, p))
    else if s[p] == QUOTE then Ok((p, escaped))
    else if s[p] == BACKSLASH then
      match ValidateEscape(s, p)
      case Err(e) => Err(e)
      case Ok(next) => ScanBody(s, next, true)
    else if s[p] < 0x20 then Err(Error(ControlCharacter, p))
    else ScanBody(s, p + 1, escaped)
  }

  // The unit that starts at `p`, and its end, when the scan goes on after it.
  lemma UnitSound(s: seq<Byte>, p: nat) returns (u: Unit, next: nat)
    requires p < |s| && s[p] != QUOTE && s[p] >= 0x20
    requires s[p] == BACKSLASH ==> ValidateEscape(s, p).Ok?
    ensures p < next <= |s| && ValidUnit(u) && UnitText(u) == s[p..next]
    ensures if s[p] == BACKSLASH then !u.Plain? && Ok(next) == ValidateEscape(s, p) else u.Plain? && next == p + 1
  {
    if s[p] == BACKSLASH {
      next := ValidateEscape(s, p).value;
      u := if SimpleEscape(s[p + 1]) then Simple(s[p + 1]) else Hex(s[p + 2..p + 6]);
    } else {
      next := p + 1;
      u := Plain(s[p]);
    }
  }

  // A scanned body is a sequence of grammar units up to the closing quote.
  lemma {:induction false} ScanBodySound(s: seq<Byte>, p: nat, escaped: bool) returns (us: Body)
    requires p <= |s| && ScanBody(s, p, escaped).Ok?
    ensures var (end, esc) := ScanBody(s, p, escaped).value;
      && s[end] == QUOTE
      && ValidBody(us) && BodyText(us) == s[p..end]
      && esc == (escaped || Escaped(us))
    decreases |s| - p
  {
    hide ValidateEscape, UnitText, ValidUnit;
    var end := ScanBody(s, p, escaped).value.0;
    if s[p] == QUOTE {
      us := [];
    } else {
      var u, next := UnitSound(s, p);
      var rest := ScanBodySound(s, next, escaped || !u.Plain?);
      us := [u] + rest;
      assert us[1..] == rest;
      assert s[p..end] == s[p..next] + s[next..end];
      EscapedCons(u, rest);
    }
  }

  lemma EscapedCons(u: Unit, rest: Body)
    ensures Escaped([u] + rest) == (!u.Plain? || Escaped(rest))
  {
    var us := [u] + rest;
    if Escaped(rest) {
      var i :| 0 <= i < |rest| && !rest[i].Plain?;
      assert us[i + 1] == rest[i];
    }
    if !u.Plain? {
      assert us[0] == u;
    }
    if Escaped(us) {
      var i :| 0 <= i < |us| && !us[i].Plain?;
      if i > 0 { assert rest[i - 1] == us[i]; }
    }
  }

  // The scan goes over a grammar unit in one piece.
  lemma UnitComplete(s: seq<Byte>, p: nat, next: nat, u: Unit)
    requires p <= next <= |s| && ValidUnit(u) && s[p..next] == UnitText(u)
    ensures p < next && s[p] != QUOTE && s[p] >= 0x20
    ensures if u.Plain? then s[p] != BACKSLASH && next == p + 1
            else s[p] == BACKSLASH && ValidateEscape(s, p) == Ok(next)
  {
    assert forall i :: p <= i < next ==> s[i] == UnitText(u)[i - p];
    if u.Hex? {
      assert forall i :: p + 2 <= i < p + 6 ==> s[i] == u.digits[i - p - 2];
    }
  }

  ghost predicate UnitsUpTo(s: seq<Byte>, p: nat, r: nat, us: Body) {
    p <= r <= |s| && ValidBody(us) && BodyText(us) == s[p..r]
  }

  // The scan goes over any sequence of grammar units.
  lemma {:induction false} ScanUnits(s: seq<Byte>, p: nat, r: nat, us: Body, escaped: bool)
    requires UnitsUpTo(s, p, r, us)
    ensures ScanBody(s, p, escaped) == ScanBody(s, r, escaped || Escaped(us))
    decreases |us|
  {
    hide UnitText, ValidUnit, ValidateEscape;
    if us == [] {
      assert p == r;
    } else {
      var u := us[0];
      var next := p + |UnitText(u)|;
      SplitSlice(s, p, r, UnitText(u), BodyText(us[1..]));
      UnitComplete(s, p, next, u);
      ScanUnits(s, next, r, us[1..], escaped || !u.Plain?);
      assert us == [u] + us[1..];
      EscapedCons(u, us[1..]);
    }
  }

  // Every sequence of grammar units before a quote is scanned to its end.
  lemma ScanBodyComplete(s: seq<Byte>, p: nat, end: nat, us: Body, escaped: bool)
    requires p <= end < |s| && s[end] == QUOTE
    requires ValidBody(us) && BodyText(us) == s[p..end]
    ensures ScanBody(s, p, escaped) == Ok((end, escaped || Escaped(us)))
  {
    ScanUnits(s, p, end, us, escaped);
  }

  // Numbers.

  function AfterMinus(s: seq<Byte>, p: nat): (q: nat)
    requires p <= |s|
    ensures p <= q <= |s|
  {
    if p < |s| && s[p] == MINUS then p + 1 else p
  }

  function ScanWhole(s: seq<Byte>, p: nat): (r: Result<nat, Error>)
    requires p <= |s|
    ensures r.Ok? ==> p < r.value <= |s|
    ensures r.Err? ==> r.error.offset <= |s|
  {
    if p == |s| then Err(Error(UnexpectedEof, p))
    else if s[p] == ZERO then
      if p + 1 < |s| && Digit(s[p + 1]) then Err(Error(InvalidNumber, p + 1)) else Ok(p + 1)
    else if Digit(s[p]) then Ok(SkipDigits(s, p))
    else Err(Error(InvalidNumber, p))
  }

  function ScanDigits(s: seq<Byte>, p: nat): (r: Result<nat, Error>)
    requires p <= |s|
    ensures r.Ok? ==> p < r.value <= |s|
    ensures r.Err? ==> r.error.offset <= |s|
  {
    if SkipDigits(s, p) == p then Err(Error(InvalidNumber, p)) else Ok(SkipDigits(s, p))
  }

  function ScanFrac(s: seq<Byte>, p: nat): (r: Result<nat, Error>)
    requires p <= |s|
    ensures r.Ok? ==> p <= r.value <= |s|
    ensures r.Err? ==> r.error.offset <= |s|
  {
    if p < |s| && s[p] == DOT then ScanDigits(s, p + 1) else Ok(p)
  }

  predicate ExpMark(b: Byte) {
    b == 0x65 || b == 0x45
  }

  function AfterSign(s: seq<Byte>, p: nat): (q: nat)
    requires p <= |s|
    ensures p <= q <= |s|
  {
    if p < |s| && (s[p] == PLUS || s[p] == MINUS) then p + 1 else p
  }

  function ScanExp(s: seq<Byte>, p: nat): (r: Result<nat, Error>)
    requires p <= |s|
    ensures r.Ok? ==> p <= r.value <= |s|
    ensures r.Err? ==> r.error.offset <= |s|
  {
    if p < |s| && ExpMark(s[p]) then ScanDigits(s, AfterSign(s, p + 1)) else Ok(p)
  }

  function ScanNumber(s: seq<Byte>, p: nat): (r: Result<nat, Error>)
    requires p <= |s|
    ensures r.Ok? ==> p < r.value <= |s|
    ensures r.Err? ==> r.error.offset <= |s|
  {
    match ScanWhole(s, AfterMinus(s, p))
    case Err(e) => Err(e)
    case Ok(w) =>
      match ScanFrac(s, w)
      case Err(e) => Err(e)
      case Ok(f) => ScanExp(s, f)
  }

  // A byte with which the number `n` goes on, or would but for its leading zero.
  predicate GoesOn(n: Number, b: Byte) {
    Digit(b) || (b == DOT && n.frac.None? && n.exp.None?) || (ExpMark(b) && n.exp.None?)
  }

  // A scanned number is a number of the grammar, and does not go on after its end.
  lemma ScanNumberSound(s: seq<Byte>, p: nat) returns (n: Number)
    requires p <= |s| && ScanNumber(s, p).Ok?
    ensures var end := ScanNumber(s, p).value;
      ValidNumber(n) && NumberText(n) == s[p..end] && (end < |s| ==> !GoesOn(n, s[end]))
  {
    hide ScanWhole, ScanFrac, ScanExp, FracText, ExpText;
    var m := AfterMinus(s, p);
    var w := ScanWhole(s, m).value;
    var f := ScanFrac(s, w).value;
    var e := ScanExp(s, f).value;
    var frac := ScanFracSound(s, w);
    var exp := ScanExpSound(s, f);
    n := Number(m != p, s[m..w], frac, exp);
    ScanWholeSound(s, m);
    assert s[p..m] == if n.minus then [MINUS] else [];
    Join4(s, p, m, w, f, e);
    ScanEnds(s, m, w, f, e);
  }

  // Where each part of a scanned number ends.
  lemma ScanEnds(s: seq<Byte>, m: nat, w: nat, f: nat, e: nat)
    requires m <= w <= f <= e <= |s|
    requires ScanWhole(s, m) == Ok(w) && ScanFrac(s, w) == Ok(f) && ScanExp(s, f) == Ok(e)
    ensures e < |s| ==> !Digit(s[e]) && (w == f == e ==> s[e] != DOT) && (f == e ==> !ExpMark(s[e]))
  {
    hide SkipDigits;
    SkipDigitsRange(s, m);
    if w < |s| {
      SkipDigitsRange(s, w + 1);
    }
    if f < |s| {
      SkipDigitsRange(s, AfterSign(s, f + 1));
    }
  }

  lemma Join4(s: seq<Byte>, p: nat, m: nat, w: nat, f: nat, e: nat)
    requires p <= m <= w <= f <= e <= |s|
    ensures s[p..m] + s[m..w] + s[w..f] + s[f..e] == s[p..e]
  {
  }

  lemma ScanWholeSound(s: seq<Byte>, m: nat)
    requires m <= |s| && ScanWhole(s, m).Ok?
    ensures var whole := s[m..ScanWhole(s, m).value];
      |whole| > 0 && AllDigits(whole) && (whole[0] == ZERO ==> |whole| == 1)
  {
    SkipDigitsRange(s, m);
  }

  lemma ScanFracSound(s: seq<Byte>, w: nat) returns (frac: Option<seq<Byte>>)
    requires w <= |s| && ScanFrac(s, w).Ok?
    ensures FracText(frac) == s[w..ScanFrac(s, w).value] && (frac.None? <==> ScanFrac(s, w).value == w)
    ensures frac.Some? ==> |frac.value| > 0 && AllDigits(frac.value)
  {
    var f := ScanFrac(s, w).value;
    frac := if f == w then None else Some(s[w + 1..f]);
    if f != w { SkipDigitsRange(s, w + 1); assert s[w..f] == [DOT] + s[w + 1..f]; }
  }

  lemma ScanExpSound(s: seq<Byte>, f: nat) returns (exp: Option<Exponent>)
    requires f <= |s| && ScanExp(s, f).Ok?
    ensures ExpText(exp) == s[f..ScanExp(s, f).value] && (exp.None? <==> ScanExp(s, f).value == f)
    ensures exp.Some? ==> |exp.value.digits| > 0 && AllDigits(exp.value.digits)
  {
    hide SkipDigits;
    var e := ScanExp(s, f).value;
    if e == f {
      exp := None;
    } else {
      var g := AfterSign(s, f + 1);
      SkipDigitsRange(s, g);
      var sign := if g == f + 1 then NoSign else if s[f + 1] == PLUS then Plus else Minus;
      exp := Some(Exponent(s[f] == 0x45, sign, s[g..e]));
      assert s[f..e] == [s[f]] + s[f + 1..g] + s[g..e];
    }
  }

  // Every number of the grammar that does not go on is scanned to its end.
  lemma ScanNumberComplete(s: seq<Byte>, p: nat, q: nat, n: Number)
    requires p <= q <= |s| && ValidNumber(n) && NumberText(n) == s[p..q]
    requires q < |s| ==> !GoesOn(n, s[q])
    ensures ScanNumber(s, p) == Ok(q)
  {
    var m, w, f := NumberParts(s, p, q, n);
    ScanExpComplete(s, f, q, n.exp);
    FirstByte(s, f, q, ExpText(n.exp));
    ScanFracComplete(s, w, f, n.frac);
    FirstByte(s, w, f, FracText(n.frac));
    ScanWholeComplete(s, m, w, n.whole);
    FirstByte(s, m, w, n.whole);
    FirstByte(s, p, m, if n.minus then [MINUS] else []);
    assert AfterMinus(s, p) == m;
  }

  lemma NumberParts(s: seq<Byte>, p: nat, q: nat, n: Number) returns (m: nat, w: nat, f: nat)
    requires p <= q <= |s| && NumberText(n) == s[p..q]
    ensures p <= m <= w <= f <= q
    ensures s[p..m] == if n.minus then [MINUS] else []
    ensures s[m..w] == n.whole && s[w..f] == FracText(n.frac) && s[f..q] == ExpText(n.exp)
  {
    var sign: seq<Byte> := if n.minus then [MINUS] else [];
    m := p + |sign|;
    w := m + |n.whole|;
    f := w + |FracText(n.frac)|;
    SplitSlice(s, p, q, sign + n.whole + FracText(n.frac), ExpText(n.exp));
    SplitSlice(s, p, f, sign + n.whole, FracText(n.frac));
    SplitSlice(s, p, w, sign, n.whole);
  }

  lemma ScanWholeComplete(s: seq<Byte>, m: nat, w: nat, whole: seq<Byte>)
    requires m <= w <= |s| && s[m..w] == whole
    requires |whole| > 0 && AllDigits(whole) && (whole[0] == ZERO ==> |whole| == 1)
    requires w < |s| ==> !Digit(s[w])
    ensures ScanWhole(s, m) == Ok(w)
  {
    FirstByte(s, m, w, whole);
    SkipDigitsUnique(s, m, w);
  }

  lemma FirstByte(s: seq<Byte>, a: nat, b: nat, t: seq<Byte>)
    requires a <= b <= |s| && s[a..b] == t
    ensures |t| == b - a
    ensures a < b ==> s[a] == t[0]
  {
    assert a < b ==> s[a..b][0] == s[a];
  }

  lemma ScanFracComplete(s: seq<Byte>, w: nat, f: nat, frac: Option<seq<Byte>>)
    requires w <= f <= |s| && FracText(frac) == s[w..f]
    requires frac.Some? ==> |frac.value| > 0 && AllDigits(frac.value)
    requires f < |s| ==> !Digit(s[f]) && (frac.None? ==> s[f] != DOT)
    ensures ScanFrac(s, w) == Ok(f)
  {
    FirstByte(s, w, f, FracText(frac));
    if frac.Some? {
      assert s[w + 1..f] == s[w..f][1..] == frac.value;
      SkipDigitsUnique(s, w + 1, f);
    }
  }

  lemma ScanExpComplete(s: seq<Byte>, f: nat, q: nat, exp: Option<Exponent>)
    requires f <= q <= |s| && ExpText(exp) == s[f..q]
    requires exp.Some? ==> |exp.value.digits| > 0 && AllDigits(exp.value.digits)
    requires q < |s| ==> !Digit(s[q]) && (exp.None? ==> !ExpMark(s[q]))
    ensures ScanExp(s, f) == Ok(q)
  {
    FirstByte(s, f, q, ExpText(exp));
    if exp.Some? {
      var x := exp.value;
      assert s[f + 1..q] == s[f..q][1..] == SignText(x.sign) + x.digits;
      SplitSlice(s, f + 1, q, SignText(x.sign), x.digits);
      var g := f + 1 + |SignText(x.sign)|;
      FirstByte(s, f + 1, g, SignText(x.sign));
      FirstByte(s, g, q, x.digits);
      assert AfterSign(s, f + 1) == g;
      SkipDigitsUnique(s, g, q);
    }
  }

  lemma {:induction false} NumberEndsDigit(s: seq<Byte>, p: nat)
    requires p <= |s| && ScanNumber(s, p).Ok?
    ensures Digit(s[ScanNumber(s, p).value - 1])
  {
    hide SkipDigits;
    var w := ScanWhole(s, AfterMinus(s, p)).value;
    var f := ScanFrac(s, w).value;
    DigitsEndDigit(s, AfterMinus(s, p));
    if w < |s| { DigitsEndDigit(s, w + 1); }
    if f < |s| { DigitsEndDigit(s, AfterSign(s, f + 1)); }
  }

  lemma {:induction false} DigitsEndDigit(s: seq<Byte>, p: nat)
    requires p <= |s|
    ensures SkipDigits(s, p) > p ==> Digit(s[SkipDigits(s, p) - 1])
    decreases |s| - p
  {
    if p < |s| && Digit(s[p]) {
      DigitsEndDigit(s, p + 1);
    }
  }
}
