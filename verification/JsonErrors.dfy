// What the errors of the tokenizer mean: the end of a document, the limit of its nesting, and the
// first byte that no JSON text can have there.
module JsonErrors {
  import opened Bytes
  import opened JsonError
  import opened JsonGrammar
  import opened JsonScan
  import opened JsonLexical
  import opened JsonMachine
  import opened JsonSound
  import opened JsonTheorems
  import opened JsonReject

  // The document is over, and its last value, if it is a number, does not go on at `q`.
  ghost predicate EndsBefore(s: seq<Byte>, q: nat, d: Document)
    requires q < |s|
  {
    && IsTreeOf(d, s[..q], Tokens(d.value))
    && !(d.post == [] && d.value.Num? && GoesOn(d.value.number, s[q]))
  }

  // `TrailingData` is answered at `q` if and only if the input before `q` is a JSON text that ends
  // there and a byte other than whitespace follows.
  lemma TrailingDataIff(s: seq<Byte>, q: nat)
    ensures Rejects(s, Error(TrailingData, q)) <==> q < |s| && !Ws(s[q]) && exists d :: EndsBefore(s, q, d)
  {
    hide Rejects, WrongValue, WrongName;
    RejectedIff(s, Error(TrailingData, q));
    if Rejects(s, Error(TrailingData, q)) {
      var k: nat, p :| Halts(s, k, p) && Wrong(s, k, p, Error(TrailingData, q));
      NoTrailingData(s, k, p, q);
      EndIsDocument(s, q, p);
    }
    if q < |s| && !Ws(s[q]) && exists d :: EndsBefore(s, q, d) {
      var d :| EndsBefore(s, q, d);
      DocumentIsEnd(s, q, d);
      assert Wrong(s, q, AtEnd(d.pre, d.value), Error(TrailingData, q));
    }
  }

  lemma NoTrailingData(s: seq<Byte>, k: nat, p: Place, q: nat)
    requires Wrong(s, k, p, Error(TrailingData, q))
    ensures p.AtEnd? && k == q < |s|
  {
    hide PlaceStack, WrongBody;
    BodyKinds(s, k + 1, Error(TrailingData, q));
  }

  lemma BodyKinds(s: seq<Byte>, p: nat, e: Error)
    ensures WrongBody(s, p, e) ==> e.kind in {UnterminatedString, InvalidEscape, ControlCharacter}
  {
  }

  lemma EndIsDocument(s: seq<Byte>, q: nat, p: Place)
    requires p.AtEnd? && q < |s| && Halts(s, q, p)
    ensures exists d :: EndsBefore(s, q, d)
  {
    hide Text, Tokens, ValidValue, Depth;
    var k := |PlaceText(p)|;
    var d := Document(p.pre, p.v, s[k..q]);
    assert s[..q] == s[..k] + s[k..q];
    assert d.post == [] ==> k == q;
    assert EndsBefore(s, q, d);
  }

  lemma DocumentIsEnd(s: seq<Byte>, q: nat, d: Document)
    requires q < |s| && !Ws(s[q]) && EndsBefore(s, q, d)
    ensures Halts(s, q, AtEnd(d.pre, d.value))
  {
    hide Text, Tokens, ValidValue, Depth;
    var p := AtEnd(d.pre, d.value);
    var k := |PlaceText(p)|;
    assert s[..q] == PlaceText(p) + d.post;
    assert s[..k] == s[..q][..k] == PlaceText(p);
    assert s[k..q] == s[..q][k..] == d.post;
    if k < q {
      assert s[k] == d.post[0];
      NotInNumber(s[k]);
    }
  }

  lemma NotInNumber(b: Byte)
    ensures Ws(b) ==> forall n :: !GoesOn(n, b)
  {
  }

  // `UnexpectedEof` is answered at the end of the input if and only if the input is a partly built
  // tree that is cut off between two tokens, or directly behind the minus of a number.
  lemma EndOfInputIff(s: seq<Byte>)
    ensures Rejects(s, Error(UnexpectedEof, |s|)) <==>
      (exists p: Place :: !p.AtEnd? && Halts(s, |s|, p)) || (exists p :: MinusIsLast(s, p))
  {
    hide Rejects, Halts, WrongBody, WrongNumber;
    var e := Error(UnexpectedEof, |s|);
    RejectedIff(s, e);
    if Rejects(s, e) {
      var q: nat, p :| Halts(s, q, p) && Wrong(s, q, p, e);
      HaltsInside(s, q, p);
      if q < |s| {
        BodyKinds(s, q + 1, e);
        OnlyMinus(s, q, e);
        assert MinusIsLast(s, p);
      }
    }
    if p: Place :| !p.AtEnd? && Halts(s, |s|, p) {
      assert Wrong(s, |s|, p, e);
    }
    if p :| MinusIsLast(s, p) {
      LastMinusIsWrong(s);
      assert Wrong(s, |s| - 1, p, e);
    }
  }

  ghost predicate MinusIsLast(s: seq<Byte>, p: Place) {
    |s| > 0 && s[|s| - 1] == MINUS && BeforeValue(p) && Halts(s, |s| - 1, p)
  }

  lemma HaltsInside(s: seq<Byte>, q: nat, p: Place)
    requires Halts(s, q, p)
    ensures q <= |s|
  {
  }

  lemma OnlyMinus(s: seq<Byte>, q: nat, e: Error)
    requires e == Error(UnexpectedEof, |s|)
    ensures WrongNumber(s, q, e) ==> q == |s| - 1 && s[q] == MINUS
  {
    hide NeedsDigit;
    if WrongNumber(s, q, e) {
      assert s[q..|s|] == [MINUS];
      assert s[q..|s|][0] == s[q];
    }
  }

  lemma LastMinusIsWrong(s: seq<Byte>)
    requires |s| > 0 && s[|s| - 1] == MINUS
    ensures WrongNumber(s, |s| - 1, Error(UnexpectedEof, |s|))
  {
    assert s[|s| - 1..|s|] == [MINUS];
  }

  // `DepthExceeded` is answered at `q` if and only if a bracket stands there that would open a
  // container inside 256 others.
  lemma DepthExceededIff(s: seq<Byte>, q: nat)
    ensures Rejects(s, Error(DepthExceeded, q)) <==> exists p :: OpensTooDeep(s, q, p)
  {
    hide Rejects, Halts, WrongBody, WrongNumber, PlaceStack;
    var e := Error(DepthExceeded, q);
    RejectedIff(s, e);
    if Rejects(s, e) {
      var k: nat, p :| Halts(s, k, p) && Wrong(s, k, p, e);
      BodyKinds(s, k + 1, e);
      NumberKinds(s, k, e);
      StackIsBounded(s, k, p);
      assert OpensTooDeep(s, q, p);
    }
    if p :| OpensTooDeep(s, q, p) {
      StackIsBounded(s, q, p);
      assert Wrong(s, q, p, e);
    }
  }

  ghost predicate OpensTooDeep(s: seq<Byte>, q: nat, p: Place) {
    q < |s| && (s[q] == LBRACE || s[q] == LBRACKET) && BeforeValue(p) && |PlaceStack(p)| == 256 && Halts(s, q, p)
  }

  lemma NumberKinds(s: seq<Byte>, p: nat, e: Error)
    ensures WrongNumber(s, p, e) ==> e.kind in {UnexpectedEof, InvalidNumber}
  {
  }

  lemma StackIsBounded(s: seq<Byte>, q: nat, p: Place)
    requires Halts(s, q, p)
    ensures |PlaceStack(p)| <= MAX_DEPTH && (p.AtStart? ==> PlaceStack(p) == [])
  {
    hide PlaceText, ItemsFit, MembersFit, Fits;
  }

  // Every rejected input is the beginning of a JSON text up to the offset of its error.

  ghost predicate Viable(x: seq<Byte>) {
    exists y, tokens: seq<Token> :: JsonText(x + y, tokens)
  }

  // A value that fits into a hole completes whatever its text begins with.
  lemma PlugIsViable(x: seq<Byte>, h: Hole, v: Value)
    requires ValidHole(h) && Fits(v, |HoleStack(h)|) && x <= HoleText(h) + Text(v)
    ensures Viable(x)
  {
    hide Text, Tokens, ValidValue, Depth, HoleText, HoleTokens, Closers, Plug, ValidHole;
    PlugFacts(h, v);
    var d := Plug(h, v);
    IsViable(x, d);
  }

  lemma IsViable(x: seq<Byte>, d: Document)
    requires ValidDocument(d) && Depth(d.value) <= MAX_DEPTH && x <= DocumentText(d)
    ensures Viable(x)
  {
    hide DocumentText, ValidDocument, Depth, Tokens;
    var y := DocumentText(d)[|x|..];
    assert x + y == DocumentText(d);
    assert IsTreeOf(d, x + y, Tokens(d.value));
    assert JsonText(x + y, Tokens(d.value));
  }

  lemma Within(s: seq<Byte>, q: nat, o: nat, front: seq<Byte>, text: seq<Byte>)
    requires q <= o <= |s| && front == s[..q] && s[q..o] <= text
    ensures s[..o] <= front + text
  {
    assert s[..o] == s[..q] + s[q..o];
  }

  // A value could have stood at `q`.
  lemma ValueIsViable(s: seq<Byte>, q: nat, h: Hole, e: Error)
    requires q < |s| && ValidHole(h) && HoleText(h) == s[..q] && WrongValue(s, q, |HoleStack(h)|, e)
    ensures e.offset <= |s| && Viable(s[..e.offset])
  {
    hide HoleText, ValidHole, Text, WrongBody, WrongNumber;
    StackFits(h);
    if s[q] == QUOTE {
      var us := BodyCompletes(s, q + 1, e);
      assert [QUOTE] + s[q + 1..e.offset] == s[q..e.offset];
      StrText(us);
      Within(s, q, e.offset, HoleText(h), Text(Str(us)));
      PlugIsViable(s[..e.offset], h, Str(us));
    } else if s[q] == MINUS || Digit(s[q]) {
      if WrongNumber(s, q, e) {
        var n := NumberCompletes(s, q, e);
        NumText(n);
        Within(s, q, e.offset, HoleText(h), Text(Num(n)));
        PlugIsViable(s[..e.offset], h, Num(n));
      }
    } else {
      NumText(ZERO_VALUE.number);
      PlugIsViable(s[..q], h, ZERO_VALUE);
    }
  }

  lemma StackFits(h: Hole)
    requires ValidHole(h)
    ensures |HoleStack(h)| <= MAX_DEPTH
  {
  }

  lemma StrText(us: Body)
    ensures Text(Str(us)) == [QUOTE] + BodyText(us) + [QUOTE] && Depth(Str(us)) == 0
    ensures ValidValue(Str(us)) <==> ValidBody(us)
  {
  }

  lemma NumText(n: Number)
    ensures Text(Num(n)) == NumberText(n) && Depth(Num(n)) == 0 && (ValidValue(Num(n)) <==> ValidNumber(n))
  {
  }

  lemma BodyCompletes(s: seq<Byte>, p: nat, e: Error) returns (us: Body)
    requires WrongBody(s, p, e)
    ensures p <= e.offset <= |s| && ValidBody(us) && s[p..e.offset] <= BodyText(us)
  {
    hide BodyText, ValidBody, NoEscapeAt;
    var r: nat, units: Body :| UnitsUpTo(s, p, r, units) && BodyStops(s, r, e);
    us := units;
    if e.offset == r + 1 {
      us := units + [Simple(BACKSLASH)];
      EscapeCompletes(s, p, r, units);
    }
  }

  lemma EscapeCompletes(s: seq<Byte>, p: nat, r: nat, us: Body)
    requires r < |s| && s[r] == BACKSLASH && UnitsUpTo(s, p, r, us)
    ensures ValidBody(us + [Simple(BACKSLASH)]) && s[p..r + 1] <= BodyText(us + [Simple(BACKSLASH)])
  {
    hide BodyText;
    BodyAppend(us, Simple(BACKSLASH));
    assert s[p..r + 1] == s[p..r] + [BACKSLASH];
  }

  lemma {:induction false} BodyAppend(us: Body, u: Unit)
    ensures BodyText(us + [u]) == BodyText(us) + UnitText(u)
  {
    if us == [] {
      assert us + [u] == [u];
    } else {
      assert (us + [u])[1..] == us[1..] + [u];
      BodyAppend(us[1..], u);
    }
  }

  lemma NumberCompletes(s: seq<Byte>, p: nat, e: Error) returns (n: Number)
    requires WrongNumber(s, p, e)
    ensures p <= e.offset <= |s| && ValidNumber(n) && s[p..e.offset] <= NumberText(n)
  {
    hide NumberText, ValidNumber;
    var x := s[p..e.offset];
    if IsZero(x) || x == [MINUS] {
      n := Number(x[0] == MINUS, [ZERO], None, None);
      ZeroText(n.minus);
    } else if m: Number :| ValidNumber(m) && m.frac.None? && m.exp.None? && x == NumberText(m) + [DOT] {
      n := m.(frac := Some([ZERO]));
      DotText(m);
    } else {
      var m: Number, mark, sign :| NeedsPower(x, m, mark, sign);
      n := m.(exp := Some(Exponent(mark == 0x45, sign, [ZERO])));
      PowerText(m, mark, sign);
    }
  }

  lemma ZeroText(minus: bool)
    ensures var n := Number(minus, [ZERO], None, None);
      ValidNumber(n) && NumberText(n) == if minus then [MINUS, ZERO] else [ZERO]
  {
  }

  lemma DotText(n: Number)
    requires ValidNumber(n) && n.frac.None? && n.exp.None?
    ensures var m := n.(frac := Some([ZERO])); ValidNumber(m) && NumberText(n) + [DOT] <= NumberText(m)
  {
    assert NumberText(n.(frac := Some([ZERO]))) == NumberText(n) + [DOT] + [ZERO];
  }

  lemma PowerText(n: Number, mark: Byte, sign: Sign)
    requires ValidNumber(n) && n.exp.None? && ExpMark(mark)
    ensures var m := n.(exp := Some(Exponent(mark == 0x45, sign, [ZERO])));
      ValidNumber(m) && NumberText(n) + [mark] + SignText(sign) <= NumberText(m)
  {
    hide FracText, SignText;
    var m := n.(exp := Some(Exponent(mark == 0x45, sign, [ZERO])));
    var front := (if n.minus then [MINUS] else []) + n.whole + FracText(n.frac);
    assert NumberText(n) == front + [] == front;
    assert NumberText(m) == front + ([mark] + SignText(sign) + [ZERO]);
    assert NumberText(m) == front + [mark] + SignText(sign) + [ZERO];
  }

  // A member could have stood at `q`.
  lemma NameIsViable(s: seq<Byte>, q: nat, p: Place, ws: seq<Byte>, e: Error)
    requires q < |s| && ValidPlace(p) && p.BeforeKey? && AllWs(ws) && PlaceText(p) + ws == s[..q] && WrongName(s, q, e)
    ensures e.offset <= |s| && Viable(s[..e.offset])
  {
    hide PlaceText, ValidPlace, WrongBody, BodyText;
    if s[q] != QUOTE {
      MemberIsViable(s[..q], p, ws, [], []);
    } else if WrongBody(s, q + 1, e) {
      var us := BodyCompletes(s, q + 1, e);
      assert [QUOTE] + s[q + 1..e.offset] == s[q..e.offset];
      Within(s, q, e.offset, s[..q], StringText(us));
      assert PlaceText(p) + (ws + StringText(us)) == s[..q] + StringText(us);
      MemberIsViable(s[..e.offset], p, ws, us, []);
    } else {
      var us, r: nat, t: nat :| NameUpTo(s, q, us, r, t) && (t < |s| ==> s[t] != COLON) && e == Error(ExpectedColon, t);
      assert s[q..t] == s[q..r] + s[r..t];
      assert s[..t] == s[..q] + s[q..t];
      assert PlaceText(p) + (ws + StringText(us) + s[r..t]) == s[..t];
      MemberIsViable(s[..t], p, ws, us, s[r..t]);
    }
  }

  lemma MemberIsViable(x: seq<Byte>, p: Place, pre: seq<Byte>, key: Body, mid: seq<Byte>)
    requires ValidPlace(p) && p.BeforeKey? && AllWs(pre) && ValidBody(key) && AllWs(mid)
    requires x <= PlaceText(p) + (pre + StringText(key) + mid)
    ensures Viable(x)
  {
    hide PlaceText, PlaceTokens, ValidPlace, StringText, Text, HoleText, HoleTokens, ValidHole;
    AfterKeyFacts(p, pre, key, mid);
    var next := AfterKey(p.outer, p.members, pre, key, mid);
    EnterFacts(next, []);
    var h := Enter(next, []);
    StackFits(h);
    NumText(ZERO_VALUE.number);
    assert PlaceText(next) == PlaceText(p) + (pre + StringText(key) + mid) + [COLON];
    assert HoleText(h) == PlaceText(next);
    PlugIsViable(x, h, ZERO_VALUE);
  }

  // The containers could have been closed at `q`, or the document ended.
  lemma PlaceIsViable(s: seq<Byte>, q: nat, p: Place, ws: seq<Byte>)
    requires q <= |s| && ValidPlace(p) && AllWs(ws) && PlaceText(p) + ws == s[..q]
    ensures Viable(s[..q])
  {
    hide PlaceText, PlaceTokens, ValidPlace, Text, HoleText, HoleTokens, ValidHole, ClosedValue, StringText;
    if BeforeValue(p) {
      EnterFacts(p, ws);
      StackFits(Enter(p, ws));
      NumText(ZERO_VALUE.number);
      PlugIsViable(s[..q], Enter(p, ws), ZERO_VALUE);
    } else if p.BeforeKey? {
      MemberIsViable(s[..q], p, ws, [], []);
    } else if p.AtEnd? {
      EndIsViable(s, q, p, ws);
    } else {
      ClosedFacts(p, ws);
      PlugIsViable(s[..q], p.outer, ClosedValue(p, ws));
    }
  }

  lemma EndIsViable(s: seq<Byte>, q: nat, p: Place, ws: seq<Byte>)
    requires q <= |s| && p.AtEnd? && ValidPlace(p) && AllWs(ws) && PlaceText(p) + ws == s[..q]
    ensures Viable(s[..q])
  {
    IsViable(s[..q], Document(p.pre, p.v, ws));
  }

  lemma RejectedPrefixIsViable(s: seq<Byte>, e: Error)
    requires Rejects(s, e)
    ensures e.offset <= |s| && Viable(s[..e.offset])
  {
    hide Rejects, WrongValue, WrongName, PlaceText, ValidPlace, Viable, Ended, PlaceStack;
    RejectedIff(s, e);
    var q: nat, p :| Halts(s, q, p) && Wrong(s, q, p, e);
    var k := |PlaceText(p)|;
    var ws := s[k..q];
    assert s[..q] == PlaceText(p) + ws;
    PlaceIsViable(s, q, p, ws);
    if q < |s| && BeforeValue(p) {
      EnterFacts(p, ws);
      FlatStart(p);
      ValueIsViable(s, q, Enter(p, ws), e);
    } else if q < |s| && p.BeforeKey? {
      NameIsViable(s, q, p, ws, e);
    }
  }

  lemma FlatStart(p: Place)
    ensures p.AtStart? ==> PlaceStack(p) == []
  {
  }

  // The kinds of error whose offset is that of a byte that no JSON text can have there.
  predicate Decisive(s: seq<Byte>, e: Error) {
    && e.offset < |s|
    && (e.kind in {TrailingData, ControlCharacter, ExpectedKey, ExpectedColon, DepthExceeded, InvalidNumber}
        || (e.kind == UnexpectedByte && Keyword(s[e.offset]) == []))
  }

  // Whatever follows that byte, the input is rejected with the same error.
  lemma FirstOffendingByte(s: seq<Byte>, e: Error, t: seq<Byte>)
    requires Rejects(s, e) && Decisive(s, e) && s[..e.offset + 1] <= t
    ensures Rejects(t, e)
  {
    hide Rejects, WrongValue, WrongName, PlaceText, ValidPlace, Ended, PlaceStack;
    RejectedIff(s, e);
    RejectedIff(t, e);
    var q: nat, p :| Halts(s, q, p) && Wrong(s, q, p, e);
    SameBytes(s, t, e.offset);
    HaltComesFirst(s, q, p, e);
    HaltsToo(s, t, q, p, e.offset);
    WrongToo(s, t, q, p, e);
  }

  predicate Agree(s: seq<Byte>, t: seq<Byte>, o: nat) {
    o < |s| && o < |t| && forall i :: 0 <= i <= o ==> s[i] == t[i]
  }

  lemma SameBytes(s: seq<Byte>, t: seq<Byte>, o: nat)
    requires o < |s| && s[..o + 1] <= t
    ensures Agree(s, t, o)
  {
    forall i | 0 <= i <= o
      ensures s[i] == t[i]
    {
      assert s[..o + 1][i] == t[i];
    }
  }

  lemma SameSlice(s: seq<Byte>, t: seq<Byte>, o: nat, a: nat, b: nat)
    requires Agree(s, t, o) && a <= b <= o + 1
    ensures s[a..b] == t[a..b]
  {
  }

  lemma HaltComesFirst(s: seq<Byte>, q: nat, p: Place, e: Error)
    requires Halts(s, q, p) && Wrong(s, q, p, e)
    ensures q <= e.offset
  {
    hide PlaceText, ValidPlace, Ended, PlaceStack, NeedsDigit, StringText;
  }

  lemma HaltsToo(s: seq<Byte>, t: seq<Byte>, q: nat, p: Place, o: nat)
    requires Halts(s, q, p) && q <= o && Agree(s, t, o)
    ensures Halts(t, q, p)
  {
    hide PlaceText, ValidPlace, AllWs;
    var k := |PlaceText(p)|;
    SameSlice(s, t, o, 0, k);
    SameSlice(s, t, o, k, q);
  }

  lemma WrongToo(s: seq<Byte>, t: seq<Byte>, q: nat, p: Place, e: Error)
    requires Wrong(s, q, p, e) && Decisive(s, e) && q <= e.offset && Agree(s, t, e.offset)
    ensures Wrong(t, q, p, e)
  {
    hide WrongBody, WrongNumber, PlaceStack, NameUpTo;
    BodyToo(s, t, q + 1, e);
    NumberToo(s, t, q, e);
    if s[q] == QUOTE && p.BeforeKey? && !WrongBody(s, q + 1, e) {
      NameToo(s, t, q, e);
    }
  }

  lemma BodyToo(s: seq<Byte>, t: seq<Byte>, p: nat, e: Error)
    requires Agree(s, t, e.offset) && e.kind !in {UnterminatedString, InvalidEscape}
    ensures WrongBody(s, p, e) ==> WrongBody(t, p, e)
  {
    if WrongBody(s, p, e) {
      var r: nat, us: Body :| UnitsUpTo(s, p, r, us) && BodyStops(s, r, e);
      SameSlice(s, t, e.offset, p, r);
      assert UnitsUpTo(t, p, r, us) && BodyStops(t, r, e);
    }
  }

  lemma NumberToo(s: seq<Byte>, t: seq<Byte>, p: nat, e: Error)
    requires Agree(s, t, e.offset)
    ensures WrongNumber(s, p, e) ==> WrongNumber(t, p, e)
  {
    hide NeedsDigit;
    if WrongNumber(s, p, e) {
      SameSlice(s, t, e.offset, p, e.offset);
    }
  }

  lemma NameToo(s: seq<Byte>, t: seq<Byte>, q: nat, e: Error)
    requires q < |s| && q <= e.offset && Agree(s, t, e.offset)
    requires s[q] == QUOTE && WrongName(s, q, e) && !WrongBody(s, q + 1, e)
    ensures WrongName(t, q, e)
  {
    hide WrongBody, StringText, AllWs;
    var us, r: nat, k: nat :| NameUpTo(s, q, us, r, k) && (k < |s| ==> s[k] != COLON) && e == Error(ExpectedColon, k);
    SameSlice(s, t, e.offset, q, r);
    SameSlice(s, t, e.offset, r, k);
    assert NameUpTo(t, q, us, r, k);
  }

  // So the offset is exact: up to it the input is the beginning of a JSON text, and with one byte
  // more it is not.
  lemma OffsetIsExact(s: seq<Byte>, e: Error)
    requires Rejects(s, e) && Decisive(s, e)
    ensures Viable(s[..e.offset]) && !Viable(s[..e.offset + 1])
  {
    hide Decisive, JsonText, Accepts;
    RejectedPrefixIsViable(s, e);
    assert e.offset < |s| by { DecisiveIsInside(s, e); }
    var x := s[..e.offset + 1];
    if Viable(x) {
      var y, tokens: seq<Token> :| JsonText(x + y, tokens);
      AcceptanceIsTheGrammar(x + y, tokens);
      FirstOffendingByte(s, e, x + y);
      AcceptedIsNotRejected(x + y, tokens, e);
    }
  }

  lemma DecisiveIsInside(s: seq<Byte>, e: Error)
    requires Decisive(s, e)
    ensures e.offset < |s|
  {
  }

  lemma AcceptedIsNotRejected(s: seq<Byte>, tokens: seq<Token>, e: Error)
    requires Accepts(s, tokens)
    ensures !Rejects(s, e)
  {
  }
}
