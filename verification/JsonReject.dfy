// Which error the tokenizer answers, in terms of the grammar.

// Strings and numbers that go wrong.
module JsonLexical {
  import opened Bytes
  import opened JsonError
  import opened JsonGrammar
  import opened JsonScan

  // No escape sequence of the grammar starts at `r`.
  ghost predicate NoEscapeAt(s: seq<Byte>, r: nat)
    requires r <= |s|
  {
    forall u :: ValidUnit(u) ==> !(UnitText(u) <= s[r..])
  }

  // The body of a string, complete so far, cannot go on at `r`.
  ghost predicate BodyStops(s: seq<Byte>, r: nat, e: Error)
    requires r <= |s|
  {
    if r == |s| then e == Error(UnterminatedString, r)
    else if s[r] == BACKSLASH then
      if r + 1 == |s| then e == Error(UnterminatedString, r + 1) else NoEscapeAt(s, r) && e == Error(InvalidEscape, r)
    else s[r] < 0x20 && e == Error(ControlCharacter, r)
  }

  // The bytes from `p` on are units of a string body, and then it cannot go on.
  ghost predicate WrongBody(s: seq<Byte>, p: nat, e: Error) {
    exists r: nat, us: Body :: UnitsUpTo(s, p, r, us) && BodyStops(s, r, e)
  }

  lemma EscapeFailsIff(s: seq<Byte>, r: nat)
    requires r + 1 < |s| && s[r] == BACKSLASH
    ensures NoEscapeAt(s, r) <==> ValidateEscape(s, r) == Err(Error(InvalidEscape, r))
  {
    if ValidateEscape(s, r).Ok? {
      var u, next := UnitSound(s, r);
      assert s[r..next] <= s[r..];
      assert UnitText(u) <= s[r..];
    }
  }

  lemma {:induction false} WrongBodyIsFound(s: seq<Byte>, p: nat, escaped: bool) returns (r: nat, us: Body)
    requires p <= |s| && ScanBody(s, p, escaped).Err?
    ensures UnitsUpTo(s, p, r, us) && BodyStops(s, r, ScanBody(s, p, escaped).error)
    decreases |s| - p
  {
    hide ValidateEscape, UnitText, ValidUnit;
    if p < |s| && s[p] >= 0x20 && (s[p] == BACKSLASH ==> ValidateEscape(s, p).Ok?) {
      var u, next := UnitSound(s, p);
      var rest;
      r, rest := WrongBodyIsFound(s, next, escaped || !u.Plain?);
      us := [u] + rest;
      assert us[1..] == rest;
      assert s[p..r] == s[p..next] + s[next..r];
    } else {
      r, us := p, [];
      if p + 1 < |s| && s[p] == BACKSLASH {
        EscapeError(s, p);
        EscapeFailsIff(s, p);
      } else if p < |s| && s[p] == BACKSLASH {
        EscapeAtEnd(s, p);
      }
    }
  }

  lemma EscapeError(s: seq<Byte>, p: nat)
    requires p + 1 < |s| && ValidateEscape(s, p).Err?
    ensures ValidateEscape(s, p) == Err(Error(InvalidEscape, p))
  {
  }

  lemma EscapeAtEnd(s: seq<Byte>, p: nat)
    requires p + 1 == |s|
    ensures ValidateEscape(s, p) == Err(Error(UnterminatedString, p + 1))
  {
  }

  // A string body fails to be scanned exactly when it is wrong, and with that error.
  lemma BodyFailsIff(s: seq<Byte>, p: nat, e: Error)
    requires p <= |s|
    ensures ScanBody(s, p, false) == Err(e) <==> WrongBody(s, p, e)
  {
    if ScanBody(s, p, false) == Err(e) {
      var r, us := WrongBodyIsFound(s, p, false);
    }
    if WrongBody(s, p, e) {
      var r: nat, us: Body :| UnitsUpTo(s, p, r, us) && BodyStops(s, r, e);
      ScanUnits(s, p, r, us, false);
      if r < |s| && s[r] == BACKSLASH {
        if r + 1 == |s| {
          EscapeAtEnd(s, r);
        } else {
          EscapeFailsIff(s, r);
        }
      }
    }
  }

  // The beginnings of numbers that need another digit.
  ghost predicate NeedsDigit(x: seq<Byte>) {
    || x == [MINUS]
    || (exists n: Number :: ValidNumber(n) && n.frac.None? && n.exp.None? && x == NumberText(n) + [DOT])
    || (exists n: Number, mark, sign :: NeedsPower(x, n, mark, sign))
  }

  predicate NeedsPower(x: seq<Byte>, n: Number, mark: Byte, sign: Sign) {
    ValidNumber(n) && n.exp.None? && ExpMark(mark) && x == NumberText(n) + [mark] + SignText(sign)
  }

  predicate IsZero(x: seq<Byte>) {
    x == [ZERO] || x == [MINUS, ZERO]
  }

  predicate IsSign(b: Byte) {
    b == PLUS || b == MINUS
  }

  // The number that starts at `p` needs a digit at `e.offset` and has none, or has one there after
  // a leading zero. Only a lone minus at the end of the input counts as a text that is cut off.
  ghost predicate WrongNumber(s: seq<Byte>, p: nat, e: Error) {
    && p < e.offset <= |s|
    && var x := s[p..e.offset];
       if IsZero(x) then e.offset < |s| && Digit(s[e.offset]) && e.kind == InvalidNumber
       else
         && NeedsDigit(x) && (e.offset < |s| ==> !Digit(s[e.offset]))
         && (e.offset < |s| && ExpMark(s[e.offset - 1]) ==> !IsSign(s[e.offset]))
         && e.kind == if x == [MINUS] && e.offset == |s| then UnexpectedEof else InvalidNumber
  }

  lemma NumberIsWrong(s: seq<Byte>, p: nat)
    requires p < |s| && (s[p] == MINUS || Digit(s[p])) && ScanNumber(s, p).Err?
    ensures WrongNumber(s, p, ScanNumber(s, p).error)
  {
    hide SkipDigits, FracText, ExpText;
    var e := ScanNumber(s, p).error;
    var m := AfterMinus(s, p);
    if ScanWhole(s, m).Err? {
      assert m > p ==> s[p..m] == [MINUS];
      assert m < |s| ==> s[p..m + 1] == s[p..m] + [s[m]];
    } else {
      var w := ScanWhole(s, m).value;
      ScanWholeSound(s, m);
      assert s[p..m] == if m != p then [MINUS] else [];
      if ScanFrac(s, w).Err? {
        FracIsWrong(s, p, m, w);
      } else {
        ExpIsWrong(s, p, m, w);
      }
    }
  }

  lemma FracIsWrong(s: seq<Byte>, p: nat, m: nat, w: nat)
    requires p <= m <= w < |s| && s[p..m] == if m != p then [MINUS] else []
    requires |s[m..w]| > 0 && AllDigits(s[m..w]) && (s[m] == ZERO ==> w == m + 1)
    requires ScanFrac(s, w).Err?
    ensures WrongNumber(s, p, ScanFrac(s, w).error)
  {
    hide NumberText, SkipDigits;
    var n := Number(m != p, s[m..w], None, None);
    assert NumberText(n) == s[p..w] by { NumberSlices(s, p, m, w, w, n); }
    DotIsWrong(s, p, w, n);
  }

  lemma DotIsWrong(s: seq<Byte>, p: nat, w: nat, n: Number)
    requires p < w < |s| && ValidNumber(n) && n.frac.None? && n.exp.None? && NumberText(n) == s[p..w]
    requires ScanFrac(s, w).Err?
    ensures WrongNumber(s, p, ScanFrac(s, w).error)
  {
    hide NumberText, SkipDigits, ValidNumber;
    assert s[p..w + 1] == NumberText(n) + [DOT];
    assert s[p..w + 1][w - p] == DOT;
    SkipDigitsRange(s, w + 1);
  }

  lemma ExpIsWrong(s: seq<Byte>, p: nat, m: nat, w: nat)
    requires p <= m <= w <= |s| && s[p..m] == if m != p then [MINUS] else []
    requires |s[m..w]| > 0 && AllDigits(s[m..w]) && (s[m] == ZERO ==> w == m + 1)
    requires ScanFrac(s, w).Ok? && ScanExp(s, ScanFrac(s, w).value).Err?
    ensures WrongNumber(s, p, ScanExp(s, ScanFrac(s, w).value).error)
  {
    hide SkipDigits, NumberText, FracText;
    var f := ScanFrac(s, w).value;
    var frac := ScanFracSound(s, w);
    var n := Number(m != p, s[m..w], frac, None);
    assert NumberText(n) == s[p..f] by { NumberSlices(s, p, m, w, f, n); }
    PowerIsWrong(s, p, f, n);
  }

  lemma NumberSlices(s: seq<Byte>, p: nat, m: nat, w: nat, f: nat, n: Number)
    requires p <= m <= w <= f <= |s| && s[p..m] == if n.minus then [MINUS] else []
    requires n.whole == s[m..w] && FracText(n.frac) == s[w..f] && n.exp.None?
    ensures NumberText(n) == s[p..f]
  {
    Join4(s, p, m, w, f, f);
  }

  lemma PowerIsWrong(s: seq<Byte>, p: nat, f: nat, n: Number)
    requires p <= f <= |s| && ValidNumber(n) && n.exp.None? && NumberText(n) == s[p..f] && ScanExp(s, f).Err?
    ensures WrongNumber(s, p, ScanExp(s, f).error)
  {
    hide SkipDigits, NumberText, ValidNumber;
    var g := AfterSign(s, f + 1);
    var sign := if g == f + 1 then NoSign else if s[f + 1] == PLUS then Plus else Minus;
    assert s[p..g] == s[p..f] + [s[f]] + SignText(sign);
    assert NeedsPower(s[p..g], n, s[f], sign);
    assert s[p..g][f - p] == s[f];
    SkipDigitsRange(s, g);
  }

  // The converse.

  lemma WrongNumberFails(s: seq<Byte>, p: nat, e: Error)
    requires WrongNumber(s, p, e)
    ensures ScanNumber(s, p) == Err(e)
  {
    hide NumberText, SkipDigits, ScanFrac, ScanExp;
    var o := e.offset;
    var x := s[p..o];
    if IsZero(x) || x == [MINUS] {
      assert s[p] == x[0] && (|x| == 2 ==> s[p + 1] == x[1]);
    } else if exists n: Number :: ValidNumber(n) && n.frac.None? && n.exp.None? && x == NumberText(n) + [DOT] {
      var n: Number :| ValidNumber(n) && n.frac.None? && n.exp.None? && x == NumberText(n) + [DOT];
      DotFails(s, p, o, n);
    } else {
      var n: Number, mark, sign :| NeedsPower(x, n, mark, sign);
      PowerFails(s, p, o, n, mark, sign);
    }
  }

  lemma NoDigits(s: seq<Byte>, o: nat)
    requires o <= |s| && (o < |s| ==> !Digit(s[o]))
    ensures ScanDigits(s, o) == Err(Error(InvalidNumber, o))
  {
  }

  // The sign and the digits of a number are scanned.
  lemma WholeAndFrac(s: seq<Byte>, p: nat, q: nat, n: Number) returns (w: nat)
    requires p <= q <= |s| && ValidNumber(n) && n.exp.None? && NumberText(n) == s[p..q]
    requires q < |s| ==> !Digit(s[q])
    ensures p < w <= q && ScanWhole(s, AfterMinus(s, p)) == Ok(w)
    ensures if n.frac.None? then w == q else ScanFrac(s, w) == Ok(q)
  {
    var m, f;
    m, w, f := NumberParts(s, p, q, n);
    FirstByte(s, w, f, FracText(n.frac));
    if n.frac.Some? {
      ScanFracComplete(s, w, f, n.frac);
    }
    ScanWholeComplete(s, m, w, n.whole);
    FirstByte(s, m, w, n.whole);
    FirstByte(s, p, m, if n.minus then [MINUS] else []);
    assert AfterMinus(s, p) == m;
  }

  lemma DotFails(s: seq<Byte>, p: nat, o: nat, n: Number)
    requires p <= o <= |s| && ValidNumber(n) && n.frac.None? && n.exp.None? && s[p..o] == NumberText(n) + [DOT]
    requires o < |s| ==> !Digit(s[o])
    ensures ScanNumber(s, p) == Err(Error(InvalidNumber, o))
  {
    hide NumberText, ScanWhole;
    SplitSlice(s, p, o, NumberText(n), [DOT]);
    FirstByte(s, o - 1, o, [DOT]);
    var w := WholeAndFrac(s, p, o - 1, n);
    NoDigits(s, o);
  }

  lemma PowerFails(s: seq<Byte>, p: nat, o: nat, n: Number, mark: Byte, sign: Sign)
    requires p <= o <= |s| && NeedsPower(s[p..o], n, mark, sign)
    requires o < |s| ==> !Digit(s[o]) && (ExpMark(s[o - 1]) ==> !IsSign(s[o]))
    ensures ScanNumber(s, p) == Err(Error(InvalidNumber, o))
  {
    hide NumberText, ScanWhole, SkipDigits;
    SplitSlice(s, p, o, NumberText(n) + [mark], SignText(sign));
    var g := o - |SignText(sign)|;
    SplitSlice(s, p, g, NumberText(n), [mark]);
    FirstByte(s, g - 1, g, [mark]);
    FirstByte(s, g, o, SignText(sign));
    var w := WholeAndFrac(s, p, g - 1, n);
    assert AfterSign(s, g) == o;
    NoDigits(s, o);
  }

  // A number fails to be scanned exactly when it is wrong, and with that error.
  lemma NumberFailsIff(s: seq<Byte>, p: nat, e: Error)
    requires p < |s| && (s[p] == MINUS || Digit(s[p]))
    ensures ScanNumber(s, p) == Err(e) <==> WrongNumber(s, p, e)
  {
    hide ScanNumber, WrongNumber;
    if ScanNumber(s, p).Err? {
      NumberIsWrong(s, p);
    }
    if WrongNumber(s, p, e) {
      WrongNumberFails(s, p, e);
    }
  }
}

// Documents that go wrong.
module JsonReject {
  import opened Bytes
  import opened JsonError
  import opened JsonGrammar
  import opened JsonScan
  import opened JsonLexical
  import opened JsonMachine
  import opened JsonSound
  import JsonComplete

  // The input, read as a partly built tree, comes to a halt at `q`: a place of the tree and
  // whitespace are behind, and the end of the input or another byte is ahead.
  ghost predicate Halts(s: seq<Byte>, q: nat, p: Place) {
    && ValidPlace(p) && |PlaceText(p)| <= q <= |s| && PlaceText(p) == s[..|PlaceText(p)|]
    && AllWs(s[|PlaceText(p)|..q]) && (q < |s| ==> !Ws(s[q])) && Ended(s, |PlaceText(p)|, p)
  }

  function Keyword(b: Byte): seq<Byte> {
    if b == TRUE_TEXT[0] then TRUE_TEXT
    else if b == FALSE_TEXT[0] then FALSE_TEXT
    else if b == NULL_TEXT[0] then NULL_TEXT
    else []
  }

  // No value of the grammar can stand at `q` inside `depth` open containers.
  ghost predicate WrongValue(s: seq<Byte>, q: nat, depth: nat, e: Error)
    requires q < |s|
  {
    if s[q] == LBRACE || s[q] == LBRACKET then depth >= MAX_DEPTH && e == Error(DepthExceeded, q)
    else if s[q] == QUOTE then WrongBody(s, q + 1, e)
    else if s[q] == MINUS || Digit(s[q]) then WrongNumber(s, q, e)
    else
      var word := Keyword(s[q]);
      if word == [] then e == Error(UnexpectedByte, q)
      else if |s| < q + |word| then e == Error(UnexpectedEof, q)
      else s[q..q + |word|] != word && e == Error(UnexpectedByte, q)
  }

  // A member name from `q` to `r`, then whitespace up to `t`.
  ghost predicate NameUpTo(s: seq<Byte>, q: nat, us: Body, r: nat, t: nat) {
    q <= r <= t <= |s| && ValidBody(us) && s[q..r] == StringText(us) && AllWs(s[r..t]) && (t < |s| ==> !Ws(s[t]))
  }

  // No member name with its colon can stand at `q`.
  ghost predicate WrongName(s: seq<Byte>, q: nat, e: Error)
    requires q < |s|
  {
    if s[q] != QUOTE then e == Error(ExpectedKey, q)
    else
      || WrongBody(s, q + 1, e)
      || exists us, r: nat, t: nat ::
           NameUpTo(s, q, us, r, t) && (t < |s| ==> s[t] != COLON) && e == Error(ExpectedColon, t)
  }

  // The tree cannot go on at `q`.
  ghost predicate Wrong(s: seq<Byte>, q: nat, p: Place, e: Error) {
    if q >= |s| then !p.AtEnd? && e == Error(UnexpectedEof, q)
    else
      match p
      case AtStart => WrongValue(s, q, 0, e)
      case AtEnd(_, _) => e == Error(TrailingData, q)
      case BeforeItem(_, items) => !(items == [] && s[q] == RBRACKET) && WrongValue(s, q, |PlaceStack(p)|, e)
      case AfterItem(_, _, _, _) => s[q] != COMMA && s[q] != RBRACKET && e == Error(UnexpectedByte, q)
      case BeforeKey(_, members) => !(members == [] && s[q] == RBRACE) && WrongName(s, q, e)
      case AfterKey(_, _, _, _, _) => WrongValue(s, q, |PlaceStack(p)|, e)
      case AfterMember(_, _, _, _, _, _, _) => s[q] != COMMA && s[q] != RBRACE && e == Error(UnexpectedByte, q)
  }

  ghost predicate Rejects(s: seq<Byte>, e: Error) {
    Drive(s, FRESH, NEVER, []).ending == Rejected(e)
  }

  // One pass fails exactly when the tree cannot go on.

  lemma ValueFailsIff(s: seq<Byte>, c: Config, e: Error)
    requires Consistent(s, c) && c.offset < |s|
    ensures (ScanValue(s, c).Failed? && ScanValue(s, c).error == e) <==> WrongValue(s, c.offset, |c.stack|, e)
  {
    hide ScanBody, ScanNumber, WrongBody, WrongNumber;
    var b := s[c.offset];
    if b == QUOTE {
      BodyFailsIff(s, c.offset + 1, e);
    } else if b == MINUS || Digit(b) {
      NumberFailsIff(s, c.offset, e);
    }
  }

  lemma NameFailsIff(s: seq<Byte>, c: Config, e: Error)
    requires Consistent(s, c) && c.offset < |s| && (c.state == ObjectFirstKey || c.state == ObjectNextKey)
    ensures (ScanKey(s, c).Failed? && ScanKey(s, c).error == e) <==> WrongName(s, c.offset, e)
  {
    hide ScanBody, WrongBody, StringText, SkipWs, NameUpTo;
    var q := c.offset;
    if s[q] == QUOTE {
      BodyFailsIff(s, q + 1, e);
      if ScanBody(s, q + 1, false).Ok? {
        NoColonIff(s, q, e);
      }
      if us, r: nat, t: nat :| NameUpTo(s, q, us, r, t) && (t < |s| ==> s[t] != COLON) && e == Error(ExpectedColon, t) {
        NameIsScanned(s, q, us, r, t);
      }
    }
  }

  lemma NameIsScanned(s: seq<Byte>, q: nat, us: Body, r: nat, t: nat)
    requires q < |s| && NameUpTo(s, q, us, r, t)
    ensures r > q && ScanBody(s, q + 1, false) == Ok((r - 1, Escaped(us))) && SkipWs(s, r) == t
  {
    JsonComplete.StringScan(s, q, r, us);
    SkipWsUnique(s, r, t);
  }

  lemma NoColonIff(s: seq<Byte>, q: nat, e: Error)
    requires q < |s| && s[q] == QUOTE && ScanBody(s, q + 1, false).Ok?
    ensures var t := SkipWs(s, ScanBody(s, q + 1, false).value.0 + 1);
      ((t < |s| ==> s[t] != COLON) && e == Error(ExpectedColon, t)) <==>
      exists us, r: nat, t: nat ::
        NameUpTo(s, q, us, r, t) && (t < |s| ==> s[t] != COLON) && e == Error(ExpectedColon, t)
  {
    hide ScanBody, SkipWs;
    var end := ScanBody(s, q + 1, false).value.0;
    var us := ScanBodySound(s, q + 1, false);
    var t := SkipWs(s, end + 1);
    SkipWsRange(s, end + 1);
    QuotedSlice(s, q, end);
    assert NameUpTo(s, q, us, end + 1, t);
    if us, r: nat, t: nat :| NameUpTo(s, q, us, r, t) && (t < |s| ==> s[t] != COLON) && e == Error(ExpectedColon, t) {
      NameIsScanned(s, q, us, r, t);
    }
  }

  lemma PassFailsIff(s: seq<Byte>, c: Config, seen: seq<Token>, p: Place, q: nat, e: Error)
    requires At(s, c, seen, p) && q == SkipWs(s, c.offset)
    ensures (Pass(s, c).Failed? && Pass(s, c).error == e) <==> Wrong(s, q, p, e)
  {
    hide ScanValue, ScanKey, WrongValue, WrongName, PlaceText, PlaceTokens, ValidPlace, Ended, SkipWs;
    var d := c.(offset := q);
    if q < |s| {
      match p {
        case AtStart => ValueFailsIff(s, d, e);
        case BeforeItem(_, items) => ValueFailsIff(s, d, e);
        case AfterKey(_, _, _, _, _) => ValueFailsIff(s, d, e);
        case BeforeKey(_, members) => NameFailsIff(s, d, e);
        case _ =>
      }
    }
  }

  // The tokenizer gets to every place of a partly built tree that the input begins with.

  function PlaceConfig(p: Place): Config {
    Config(|PlaceText(p)|, PlaceState(p), PlaceStack(p))
  }

  // The input begins with the place.
  ghost predicate Begins(s: seq<Byte>, p: Place) {
    ValidPlace(p) && PlaceText(p) <= s && Ended(s, |PlaceText(p)|, p)
  }

  ghost predicate Reaches(s: seq<Byte>, p: Place) {
    && Consistent(s, PlaceConfig(p))
    && Run(s, INITIAL, NEVER, []) == Run(s, PlaceConfig(p), NEVER, PlaceTokens(p))
  }

  lemma PlaceIsConsistent(s: seq<Byte>, p: Place)
    requires Begins(s, p)
    ensures Consistent(s, PlaceConfig(p))
  {
    hide PlaceText, ItemsFit, MembersFit, Fits;
  }

  // The place before a value, and the whitespace between.
  function Outside(h: Hole): (Place, seq<Byte>) {
    match h
    case Top(pre) => (AtStart, pre)
    case InArray(o, items, pre) => (BeforeItem(o, items), pre)
    case InObject(o, members, pre, key, mid, gap) => (AfterKey(o, members, pre, key, mid), gap)
  }

  lemma OutsideFacts(h: Hole)
    requires ValidHole(h)
    ensures var (p, ws) := Outside(h);
      && ValidPlace(p) && AllWs(ws) && BeforeValue(p) && Enter(p, ws) == h && LastValue(p).None?
      && HoleText(h) == PlaceText(p) + ws && HoleTokens(h) == PlaceTokens(p) && HoleStack(h) == PlaceStack(p)
  {
    hide HoleText, HoleTokens, PlaceText, PlaceTokens;
    var (p, ws) := Outside(h);
    assert ValidPlace(p) by { hide ItemsFit, MembersFit, ValidBody; }
    EnterFacts(p, ws);
  }

  lemma Prefix(s: seq<Byte>, a: seq<Byte>, b: seq<Byte>)
    requires a + b <= s
    ensures a <= s && s[|a|..|a| + |b|] == b
  {
    assert s[..|a| + |b|] == a + b;
    assert s[..|a|] == s[..|a| + |b|][..|a|];
    assert s[|a|..|a| + |b|] == s[..|a| + |b|][|a|..];
  }

  // From the place before a value to the place after it.
  lemma ReachAfter(s: seq<Byte>, h: Hole, v: Value)
    requires Begins(s, Fill(h, v)) && ValidHole(h) && Fits(v, |HoleStack(h)|)
    requires Begins(s, Outside(h).0) ==> Reaches(s, Outside(h).0)
    ensures Reaches(s, Fill(h, v))
  {
    hide HoleText, HoleTokens, HoleStack, PlaceText, PlaceTokens, PlaceStack, PlaceState, ValidPlace, ValidHole,
      Text, Tokens, Fill, Run, Outside;
    var (p, ws) := Outside(h);
    OutsideFacts(h);
    FillFacts(h, v);
    var k := |PlaceText(p)|;
    Prefix(s, HoleText(h), Text(v));
    Prefix(s, PlaceText(p), ws);
    ExpectsValueAt(p);
    JsonComplete.ValueComplete(s, PlaceConfig(p), k + |ws|, v, k + |ws| + |Text(v)|, PlaceTokens(p));
    PlaceIsConsistent(s, Fill(h, v));
  }

  lemma ExpectsValueAt(p: Place)
    requires BeforeValue(p)
    ensures JsonComplete.ExpectsValue(PlaceState(p))
  {
  }

  // From the place before a container to the place inside it.
  lemma ReachInside(s: seq<Byte>, h: Hole, isArray: bool)
    requires ValidHole(h) && |HoleStack(h)| < MAX_DEPTH
    requires Begins(s, if isArray then BeforeItem(h, []) else BeforeKey(h, []))
    requires Begins(s, Outside(h).0) ==> Reaches(s, Outside(h).0)
    ensures Reaches(s, if isArray then BeforeItem(h, []) else BeforeKey(h, []))
  {
    hide HoleText, HoleTokens, PlaceText, PlaceTokens, ValidPlace, ValidHole, Run, Outside;
    var (p, ws) := Outside(h);
    OutsideFacts(h);
    OpenedFacts(h);
    var bracket: Byte := if isArray then LBRACKET else LBRACE;
    Prefix(s, HoleText(h), [bracket]);
    Prefix(s, PlaceText(p), ws);
    var k := |PlaceText(p)|;
    assert s[k + |ws|..k + |ws| + 1][0] == s[k + |ws|];
    ExpectsValueAt(p);
    JsonComplete.OpenRun(s, PlaceConfig(p), k + |ws|, isArray, PlaceTokens(p));
  }

  // From the place after an item or a member over its comma.
  lemma ReachNext(s: seq<Byte>, p: Place, ws: seq<Byte>, next: Place)
    requires ValidPlace(p) && AllWs(ws) && (p.AfterItem? || p.AfterMember?)
    requires next == if p.AfterItem? then BeforeItem(p.outer, p.items + [Item(p.pre, p.v, ws)])
                     else BeforeKey(p.outer, p.members + [Member(p.pre, p.key, p.mid, p.gap, p.v, ws)])
    requires Begins(s, next)
    requires Begins(s, p) ==> Reaches(s, p)
    ensures Reaches(s, next)
  {
    hide HoleText, HoleTokens, PlaceText, PlaceTokens, ValidPlace, ValidHole, Run, GoesOn;
    CommaFacts(p, ws);
    Prefix(s, PlaceText(p) + ws, [COMMA]);
    Prefix(s, PlaceText(p), ws);
    var k := |PlaceText(p)|;
    assert s[k + |ws|..k + |ws| + 1][0] == s[k + |ws|];
    JsonComplete.DelimitedByWs(s, k, k + |ws|, p.v);
    assert Begins(s, p);
    JsonComplete.CommaRun(s, PlaceConfig(p), k + |ws|, PlaceTokens(p));
  }

  // From the place before a member name behind its colon.
  lemma ReachColon(s: seq<Byte>, p: Place, pre: seq<Byte>, key: Body, mid: seq<Byte>)
    requires ValidPlace(p) && p.BeforeKey? && AllWs(pre) && ValidBody(key) && AllWs(mid)
    requires Begins(s, AfterKey(p.outer, p.members, pre, key, mid))
    requires Begins(s, p) ==> Reaches(s, p)
    ensures Reaches(s, AfterKey(p.outer, p.members, pre, key, mid))
  {
    hide HoleText, HoleTokens, PlaceText, PlaceTokens, ValidPlace, Run, StringText;
    var next := AfterKey(p.outer, p.members, pre, key, mid);
    AfterKeyFacts(p, pre, key, mid);
    var k := |PlaceText(p)|;
    var name := pre + StringText(key);
    assert PlaceText(next) == PlaceText(p) + (name + mid + [COLON]);
    Prefix(s, PlaceText(p), name + mid + [COLON]);
    var g := |PlaceText(next)|;
    SplitSlice(s, k, g, name + mid, [COLON]);
    SplitSlice(s, k, g - 1, name, mid);
    SplitSlice(s, k, k + |name|, pre, StringText(key));
    FirstByte(s, g - 1, g, [COLON]);
    assert Begins(s, p);
    QuotesCount(key);
    JsonComplete.KeyPass(s, PlaceConfig(p), key, k + |pre|, k + |name|, g);
    JsonComplete.RunOn(s, PlaceConfig(p), PlaceConfig(next), Some(KeyToken(key)), PlaceTokens(p));
  }

  lemma QuotesCount(key: Body)
    ensures |StringText(key)| >= 2
  {
  }

  lemma {:induction false} PlaceIsReached(s: seq<Byte>, p: Place)
    requires Begins(s, p)
    ensures Reaches(s, p)
    decreases |PlaceText(p)|
  {
    hide HoleText, HoleTokens, PlaceText, PlaceTokens, Begins, Reaches, Text, Tokens, Outside;
    match p {
      case AtStart => StartIsReached(s);
      case AtEnd(pre, v) => AfterIsReached(s, p, Top(pre), v);
      case BeforeItem(o, items) =>
        if items == [] {
          InsideIsReached(s, o, true);
        } else {
          var last := items[|items| - 1];
          assert items == items[..|items| - 1] + [last];
          NextIsReached(s, AfterItem(o, items[..|items| - 1], last.pre, last.value), last.post, p);
        }
      case AfterItem(o, items, pre, v) => AfterIsReached(s, p, InArray(o, items, pre), v);
      case BeforeKey(o, members) =>
        if members == [] {
          InsideIsReached(s, o, false);
        } else {
          var last := members[|members| - 1];
          assert members == members[..|members| - 1] + [last];
          var before := AfterMember(o, members[..|members| - 1], last.pre, last.key, last.mid, last.gap, last.value);
          NextIsReached(s, before, last.post, p);
        }
      case AfterKey(o, members, pre, key, mid) => ColonIsReached(s, p);
      case AfterMember(o, members, pre, key, mid, gap, v) =>
        AfterIsReached(s, p, InObject(o, members, pre, key, mid, gap), v);
    }
  }

  lemma StartIsReached(s: seq<Byte>)
    ensures Reaches(s, AtStart)
  {
  }

  lemma {:induction false} AfterIsReached(s: seq<Byte>, p: Place, h: Hole, v: Value)
    requires Begins(s, p) && p == Fill(h, v)
    ensures Reaches(s, p)
    decreases |PlaceText(p)|, 0
  {
    hide HoleText, HoleTokens, PlaceText, PlaceTokens, Reaches, Text, Tokens, Outside, Ended;
    FilledIsValid(h, v);
    OutsideFacts(h);
    FillFacts(h, v);
    JsonComplete.ValueStart(v);
    if Begins(s, Outside(h).0) {
      PlaceIsReached(s, Outside(h).0);
    }
    ReachAfter(s, h, v);
  }

  lemma FilledIsValid(h: Hole, v: Value)
    requires ValidPlace(Fill(h, v))
    ensures ValidHole(h) && Fits(v, |HoleStack(h)|)
  {
  }

  lemma {:induction false} InsideIsReached(s: seq<Byte>, h: Hole, isArray: bool)
    requires Begins(s, if isArray then BeforeItem(h, []) else BeforeKey(h, []))
    ensures Reaches(s, if isArray then BeforeItem(h, []) else BeforeKey(h, []))
    decreases |PlaceText(if isArray then BeforeItem(h, []) else BeforeKey(h, []))|, 0
  {
    hide HoleText, HoleTokens, PlaceText, PlaceTokens, Reaches, Outside, Ended;
    OutsideFacts(h);
    OpenedFacts(h);
    if Begins(s, Outside(h).0) {
      PlaceIsReached(s, Outside(h).0);
    }
    ReachInside(s, h, isArray);
  }

  lemma {:induction false} NextIsReached(s: seq<Byte>, p: Place, ws: seq<Byte>, next: Place)
    requires p.AfterItem? || p.AfterMember?
    requires next == if p.AfterItem? then BeforeItem(p.outer, p.items + [Item(p.pre, p.v, ws)])
                     else BeforeKey(p.outer, p.members + [Member(p.pre, p.key, p.mid, p.gap, p.v, ws)])
    requires Begins(s, next)
    ensures Reaches(s, next)
    decreases |PlaceText(next)|, 0
  {
    hide HoleText, HoleTokens, PlaceText, PlaceTokens, Reaches, Ended;
    FrontIsValid(p, ws, next);
    CommaFacts(p, ws);
    if Begins(s, p) {
      PlaceIsReached(s, p);
    }
    ReachNext(s, p, ws, next);
  }

  lemma FrontIsValid(p: Place, ws: seq<Byte>, next: Place)
    requires (p.AfterItem? || p.AfterMember?) && ValidPlace(next)
    requires next == if p.AfterItem? then BeforeItem(p.outer, p.items + [Item(p.pre, p.v, ws)])
                     else BeforeKey(p.outer, p.members + [Member(p.pre, p.key, p.mid, p.gap, p.v, ws)])
    ensures ValidPlace(p) && AllWs(ws)
  {
    hide HoleText, AllWs, ValidBody, ValidValue, Depth;
    if p.AfterItem? {
      assert next.items[|p.items|] == Item(p.pre, p.v, ws);
      assert forall i :: 0 <= i < |p.items| ==> next.items[i] == p.items[i];
    } else {
      assert next.members[|p.members|] == Member(p.pre, p.key, p.mid, p.gap, p.v, ws);
      assert forall i :: 0 <= i < |p.members| ==> next.members[i] == p.members[i];
    }
  }

  lemma {:induction false} ColonIsReached(s: seq<Byte>, p: Place)
    requires p.AfterKey? && Begins(s, p)
    ensures Reaches(s, p)
    decreases |PlaceText(p)|, 0
  {
    hide HoleText, HoleTokens, PlaceText, PlaceTokens, Reaches, Ended, MembersFit, StringText;
    var before := BeforeKey(p.outer, p.members);
    AfterKeyFacts(before, p.pre, p.key, p.mid);
    if Begins(s, before) {
      PlaceIsReached(s, before);
    }
    ReachColon(s, before, p.pre, p.key, p.mid);
  }

  // The input is rejected with an error if and only if it begins with a place of a partly built
  // tree, perhaps followed by whitespace, at which the tree goes wrong with that error.
  lemma RejectedIff(s: seq<Byte>, e: Error)
    ensures Rejects(s, e) <==> exists q: nat, p :: Halts(s, q, p) && Wrong(s, q, p, e)
  {
    hide Halts, Wrong, Drive;
    if Rejects(s, e) {
      DriveIsRun(s);
      assert At(s, INITIAL, [], AtStart) by {
        assert s[..0] == [];
      }
      var q, p := HaltIsFound(s, INITIAL, [], AtStart);
    }
    if q: nat, p :| Halts(s, q, p) && Wrong(s, q, p, e) {
      HaltRejects(s, q, p, e);
    }
  }

  lemma DriveIsRun(s: seq<Byte>)
    ensures Drive(s, FRESH, NEVER, []).ending == Run(s, INITIAL, NEVER, []).ending
  {
  }

  lemma {:induction false} HaltIsFound(s: seq<Byte>, c: Config, seen: seq<Token>, p: Place)
    returns (q: nat, last: Place)
    requires At(s, c, seen, p) && Run(s, c, NEVER, seen).ending.Rejected?
    ensures Halts(s, q, last) && Wrong(s, q, last, Run(s, c, NEVER, seen).ending.error)
    decreases |s| - c.offset
  {
    hide PlaceText, PlaceTokens, ValidPlace, PlaceState, PlaceStack, Ended, PassAt, Halts, Wrong;
    if Pass(s, c).Failed? {
      q, last := SkipWs(s, c.offset), p;
      PassFailsIff(s, c, seen, p, q, Pass(s, c).error);
      AtHalts(s, c, seen, p);
    } else {
      var Advanced(next, token) := Pass(s, c);
      var nextPlace := PassPlace(s, c, seen, p);
      assert seen + [] == seen;
      q, last := HaltIsFound(s, next, seen + (if token.Some? then [token.value] else []), nextPlace);
    }
  }

  lemma AtHalts(s: seq<Byte>, c: Config, seen: seq<Token>, p: Place)
    requires At(s, c, seen, p)
    ensures Halts(s, SkipWs(s, c.offset), p)
  {
    hide PlaceText, PlaceTokens, ValidPlace, PlaceState, PlaceStack, Ended, SkipWs;
    SkipWsRange(s, c.offset);
  }

  lemma HaltRejects(s: seq<Byte>, q: nat, p: Place, e: Error)
    requires Halts(s, q, p) && Wrong(s, q, p, e)
    ensures Rejects(s, e)
  {
    hide PlaceText, PlaceTokens, ValidPlace, PlaceState, PlaceStack, Ended, Wrong, Drive;
    PlaceIsReached(s, p);
    var c := PlaceConfig(p);
    SkipWsUnique(s, c.offset, q);
    PassFailsIff(s, c, PlaceTokens(p), p, q, e);
    DriveIsRun(s);
  }
}
