// The tokenizer accepts exactly the JSON texts of RFC 8259 that nest at most MAX_DEPTH deep,
// reports exactly their linearization, and never reports a token from a hopeless prefix.
module JsonTheorems {
  import opened Bytes
  import Utf8
  import opened JsonError
  import opened JsonGrammar
  import opened JsonScan
  import opened JsonMachine
  import opened JsonSound
  import JsonComplete

  // `s` is a JSON text (section 2 of RFC 8259) of bounded nesting whose tree linearizes to `tokens`.
  ghost predicate JsonText(s: seq<Byte>, tokens: seq<Token>) {
    exists d: Document :: IsTreeOf(d, s, tokens)
  }

  ghost predicate IsTreeOf(d: Document, s: seq<Byte>, tokens: seq<Token>) {
    ValidDocument(d) && Depth(d.value) <= MAX_DEPTH && DocumentText(d) == s && Tokens(d.value) == tokens
  }

  // Acceptance is the grammar, and the reported tokens are those of the parse tree.
  lemma AcceptanceIsTheGrammar(s: seq<Byte>, tokens: seq<Token>)
    ensures Accepts(s, tokens) <==> JsonText(s, tokens)
  {
    if Accepts(s, tokens) {
      assert At(s, INITIAL, [], AtStart) by {
        assert s[..0] == [];
      }
      var d := RunPlace(s, INITIAL, [], AtStart);
      assert IsTreeOf(d, s, tokens);
    }
    if JsonText(s, tokens) {
      var d: Document :| IsTreeOf(d, s, tokens);
      JsonComplete.DocumentIsAccepted(d);
    }
  }

  // A run that completes has read a document.
  lemma {:induction false} RunPlace(s: seq<Byte>, c: Config, seen: seq<Token>, p: Place) returns (d: Document)
    requires At(s, c, seen, p) && Run(s, c, NEVER, seen).ending == Completed
    ensures IsTreeOf(d, s, Run(s, c, NEVER, seen).seen)
    decreases |s| - c.offset
  {
    hide PlaceText, PlaceTokens, ValidPlace, PlaceState, PlaceStack, PassAt;
    if Pass(s, c).Finished? {
      d := EndPlace(s, c, seen, p);
    } else {
      var Advanced(next, token) := Pass(s, c);
      var q := PassPlace(s, c, seen, p);
      assert seen + [] == seen;
      d := RunPlace(s, next, seen + (if token.Some? then [token.value] else []), q);
    }
  }

  lemma {:induction false} EndPlace(s: seq<Byte>, c: Config, seen: seq<Token>, p: Place) returns (d: Document)
    requires At(s, c, seen, p) && Pass(s, c).Finished?
    ensures IsTreeOf(d, s, seen)
  {
    hide PassAt, Text, Tokens, Depth, ValidValue;
    SkipWsRange(s, c.offset);
    d := Document(p.pre, p.v, s[c.offset..]);
    assert s[c.offset..|s|] == s[c.offset..];
    assert s[..c.offset] + s[c.offset..] == s;
  }

  // The configuration and the reported tokens after `n` passes, if none of them ended the run.
  function Passes(s: seq<Byte>, n: nat): (r: Option<(Config, seq<Token>)>)
    ensures r.Some? ==> Consistent(s, r.value.0)
  {
    if n == 0 then Some((INITIAL, []))
    else
      match Passes(s, n - 1)
      case None => None
      case Some((c, seen)) =>
        match Pass(s, c)
        case Advanced(d, token) => Some((d, seen + (if token.Some? then [token.value] else [])))
        case _ => None
  }

  // The shortest way on from a grammar state: what is still owed to the innermost container,
  // and then the brackets of all the others.
  function Owed(state: State): seq<Byte> {
    match state
    case Start => [ZERO]
    case Done => []
    case ObjectFirstKey => [RBRACE]
    case ObjectNextKey => [QUOTE, QUOTE, COLON, ZERO, RBRACE]
    case ObjectValue => [ZERO, RBRACE]
    case ObjectComma => [RBRACE]
    case ArrayFirstValue => [RBRACKET]
    case ArrayNextValue => [ZERO, RBRACKET]
    case ArrayComma => [RBRACKET]
  }

  function Closers(stack: seq<bool>): seq<Byte>
    decreases |stack|
  {
    if stack == [] then []
    else [if stack[|stack| - 1] then RBRACKET else RBRACE] + Closers(stack[..|stack| - 1])
  }

  function Completion(c: Config): seq<Byte> {
    Owed(c.state) + Closers(Pop(c.stack))
  }

  // In every configuration that the loop reaches, the consumed input followed by the
  // completion of the grammar state and the stack is an accepted document that begins with
  // the tokens reported so far; if the input is well-formed UTF-8, so is that document.
  lemma EveryPrefixIsViable(s: seq<Byte>, n: nat)
    requires Passes(s, n).Some?
    ensures var (c, seen) := Passes(s, n).value;
      var completed := s[..c.offset] + Completion(c);
      && (exists tokens: seq<Token> :: seen <= tokens && Accepts(completed, tokens))
      && (Utf8.WellFormed(s) ==> Utf8.WellFormed(completed))
  {
    hide Passes, Completion, At, Accepts, Finish, PlaceText, PlaceTokens, PlaceState, PlaceStack, ValidPlace;
    var (c, seen) := Passes(s, n).value;
    var p := PassesPlace(s, n);
    AtCompletes(s, c, seen, p);
    if Utf8.WellFormed(s) {
      ConsumedIsWellFormed(s, n);
      CompletionIsAscii(c);
      Utf8.AsciiIsWellFormed(Completion(c));
      Utf8.Concat(s[..c.offset], Completion(c));
    }
  }

  lemma {:induction false} AtCompletes(s: seq<Byte>, c: Config, seen: seq<Token>, p: Place)
    requires At(s, c, seen, p)
    ensures exists tokens: seq<Token> :: seen <= tokens && Accepts(s[..c.offset] + Completion(c), tokens)
  {
    hide Accepts, Finish, PlaceText, PlaceTokens, PlaceState, PlaceStack, ValidPlace, Closers, Owed;
    var d := Finish(p);
    FinishFacts(p);
    JsonComplete.DocumentIsAccepted(d);
    assert Completion(c) == Completion(Config(0, PlaceState(p), PlaceStack(p)));
    assert seen <= Tokens(d.value);
  }

  lemma {:induction false} PassesPlace(s: seq<Byte>, n: nat) returns (p: Place)
    requires Passes(s, n).Some?
    ensures At(s, Passes(s, n).value.0, Passes(s, n).value.1, p)
  {
    hide PassAt, HoleText;
    if n == 0 {
      p := AtStart;
      assert s[..0] == [];
    } else {
      var (c, seen) := Passes(s, n - 1).value;
      var q := PassesPlace(s, n - 1);
      p := PassPlace(s, c, seen, q);
    }
  }

  // Every configuration in which a visitor suspends the run is one that the loop reaches.
  lemma {:induction false} SuspendedIsReached(s: seq<Byte>, n: nat, stops: StopRule) returns (m: nat)
    requires Passes(s, n).Some?
    ensures var (c, seen) := Passes(s, n).value;
      var r := Run(s, c, stops, seen);
      r.ending.Suspended? ==> Passes(s, m) == Some((r.next, r.seen))
    decreases |s| - Passes(s, n).value.0.offset
  {
    hide PassAt;
    var (c, seen) := Passes(s, n).value;
    m := n + 1;
    match Pass(s, c) {
      case Advanced(d, None) =>
        assert seen + [] == seen;
        m := SuspendedIsReached(s, n + 1, stops);
      case Advanced(d, Some(t)) =>
        if !stops(seen + [t]) {
          m := SuspendedIsReached(s, n + 1, stops);
        }
      case _ =>
    }
  }

  // A hole with a value in it, and every container around it closed at once.
  function Plug(h: Hole, v: Value): Document {
    match h
    case Top(pre) => Document(pre, v, [])
    case InArray(o, items, pre) => Plug(o, Array(MakeItems(items, Item(pre, v, []))))
    case InObject(o, members, pre, key, mid, gap) =>
      Plug(o, Object(MakeMembers(members, Member(pre, key, mid, gap, v, []))))
  }

  const ZERO_VALUE: Value := Num(Number(false, [ZERO], None, None))

  // The document in which a place ends when nothing but what it owes is added.
  function Finish(p: Place): Document {
    match p
    case AtStart => Plug(Top([]), ZERO_VALUE)
    case AtEnd(pre, v) => Plug(Top(pre), v)
    case BeforeItem(o, items) => if items == [] then Plug(o, EmptyArray([]))
        else Plug(InArray(o, items, []), ZERO_VALUE)
    case AfterItem(o, items, pre, v) => Plug(InArray(o, items, pre), v)
    case BeforeKey(o, members) =>
      if members == [] then Plug(o, EmptyObject([])) else Plug(InObject(o, members, [], [], [], []), ZERO_VALUE)
    case AfterKey(o, members, pre, key, mid) => Plug(InObject(o, members, pre, key, mid, []), ZERO_VALUE)
    case AfterMember(o, members, pre, key, mid, gap, v) => Plug(InObject(o, members, pre, key, mid, gap), v)
  }

  lemma {:induction false} PlugFacts(h: Hole, v: Value)
    requires ValidHole(h) && Fits(v, |HoleStack(h)|)
    ensures var d := Plug(h, v);
      && ValidDocument(d) && Depth(d.value) <= MAX_DEPTH
      && DocumentText(d) == HoleText(h) + Text(v) + Closers(HoleStack(h))
      && HoleTokens(h) + Tokens(v) <= Tokens(d.value)
    decreases h
  {
    hide Text, Tokens, ValidValue, Depth, HoleText, HoleTokens;
    match h {
      case Top(pre) =>
        TopFacts(pre, v);
      case InArray(o, items, pre) =>
        var p := AfterItem(o, items, pre, v);
        ClosedFacts(p, []);
        FillFacts(h, v);
        PlugFacts(o, ClosedValue(p, []));
        PlugClosed(h, v, p);
      case InObject(o, members, pre, key, mid, gap) =>
        var p := AfterMember(o, members, pre, key, mid, gap, v);
        ClosedFacts(p, []);
        FillFacts(h, v);
        PlugFacts(o, ClosedValue(p, []));
        PlugClosed(h, v, p);
    }
  }

  lemma {:induction false} TopFacts(pre: seq<Byte>, v: Value)
    ensures HoleText(Top(pre)) == pre && HoleTokens(Top(pre)) == []
    ensures pre + Text(v) + [] == HoleText(Top(pre)) + Text(v) + Closers([])
    ensures HoleTokens(Top(pre)) + Tokens(v) == Tokens(v)
  {
  }

  // Plugging the closed container outside is plugging the value inside.
  lemma {:induction false} PlugClosed(h: Hole, v: Value, p: Place)
    requires !h.Top? && p == Fill(h, v) && Closable(p) && p.outer == h.outer
    requires HoleStack(h) == HoleStack(h.outer) + [OpenArray(p)]
    requires PlaceText(p) == HoleText(h) + Text(v) && PlaceTokens(p) == HoleTokens(h) + Tokens(v)
    requires var u := ClosedValue(p, []);
      && HoleText(p.outer) + Text(u) == PlaceText(p) + [] + [if OpenArray(p) then RBRACKET else RBRACE]
      && HoleTokens(p.outer) + Tokens(u) == PlaceTokens(p) + [if OpenArray(p) then ArrayEnd else ObjectEnd]
    ensures HoleText(h.outer) + Text(ClosedValue(p, [])) + Closers(HoleStack(h.outer))
         == HoleText(h) + Text(v) + Closers(HoleStack(h))
    ensures HoleTokens(h) + Tokens(v) <= HoleTokens(h.outer) + Tokens(ClosedValue(p, []))
  {
    hide Text, Tokens, HoleText, HoleTokens, PlaceText, PlaceTokens, ClosedValue, HoleStack;
    var stack := HoleStack(h);
    assert stack[..|stack| - 1] == HoleStack(h.outer);
    assert PlaceText(p) + [] == PlaceText(p);
    assert Closers(stack) == [if OpenArray(p) then RBRACKET else RBRACE] + Closers(HoleStack(h.outer));
  }

  lemma {:induction false} FinishFacts(p: Place)
    requires ValidPlace(p)
    ensures var d := Finish(p);
      && ValidDocument(d) && Depth(d.value) <= MAX_DEPTH
      && DocumentText(d) == PlaceText(p) + Completion(Config(0, PlaceState(p), PlaceStack(p)))
      && PlaceTokens(p) <= Tokens(d.value)
  {
    hide Text, Tokens, ValidValue, Depth, HoleText, HoleTokens, HoleStack, PlaceText, PlaceTokens, PlaceStack,
      PlaceState, ValidHole, ValidPlace, Plug, Finish, Closers, Completion, DocumentText, ValidDocument, Fits,
      Filling, ClosesItself;
    var h, v := FinishHole(p);
    PlugFacts(h, v);
    FillingCompletes(p);
    assert PlaceText(p) + Filling(p) + Closers(HoleStack(h)) == PlaceText(p) + (Filling(p) + Closers(HoleStack(h)));
  }

  // The bytes that a place is given before its remaining brackets.
  function Filling(p: Place): seq<Byte> {
    match p
    case AtStart => [ZERO]
    case BeforeItem(_, items) => if items == [] then [RBRACKET] else [ZERO]
    case BeforeKey(_, members) => if members == [] then [RBRACE] else [QUOTE, QUOTE, COLON, ZERO]
    case AfterKey(_, _, _, _, _) => [ZERO]
    case _ => []
  }

  predicate ClosesItself(p: Place) {
    (p.BeforeItem? && p.items == []) || (p.BeforeKey? && p.members == [])
  }

  // The hole and the value that finish a place.
  lemma {:induction false} FinishHole(p: Place) returns (h: Hole, v: Value)
    requires ValidPlace(p)
    ensures Finish(p) == Plug(h, v) && ValidHole(h) && Fits(v, |HoleStack(h)|)
    ensures HoleText(h) + Text(v) == PlaceText(p) + Filling(p)
    ensures HoleStack(h) == if ClosesItself(p) then Pop(PlaceStack(p)) else PlaceStack(p)
    ensures PlaceTokens(p) <= HoleTokens(h) + Tokens(v)
  {
    hide HoleText, HoleTokens, PlaceText, PlaceTokens, Plug, ValidPlace, ValidHole, HoleStack, Text, Tokens, Fits;
    if ClosesItself(p) {
      h, v := FinishEmpty(p);
    } else if p.AtEnd? || p.AfterItem? || p.AfterMember? {
      h, v := FinishFilled(p);
    } else if BeforeValue(p) {
      v := ZERO_VALUE;
      h := FinishEntered(p);
    } else {
      v := ZERO_VALUE;
      h := FinishKey(p);
    }
  }

  lemma {:induction false} FinishEmpty(p: Place) returns (h: Hole, v: Value)
    requires ValidPlace(p) && ClosesItself(p)
    ensures Finish(p) == Plug(h, v) && ValidHole(h) && Fits(v, |HoleStack(h)|)
    ensures HoleText(h) + Text(v) == PlaceText(p) + Filling(p) && HoleStack(h) == Pop(PlaceStack(p))
    ensures PlaceTokens(p) <= HoleTokens(h) + Tokens(v)
  {
    hide HoleText, HoleTokens;
    h := p.outer;
    v := if p.BeforeItem? then EmptyArray([]) else EmptyObject([]);
    OpenedFacts(h);
    assert Text(v) == if p.BeforeItem? then [LBRACKET, RBRACKET] else [LBRACE, RBRACE];
    assert Pop(PlaceStack(p)) == HoleStack(h);
  }

  lemma {:induction false} FinishFilled(p: Place) returns (h: Hole, v: Value)
    requires ValidPlace(p) && (p.AtEnd? || p.AfterItem? || p.AfterMember?)
    ensures Finish(p) == Plug(h, v) && ValidHole(h) && Fits(v, |HoleStack(h)|)
    ensures HoleText(h) + Text(v) == PlaceText(p) + Filling(p) && HoleStack(h) == PlaceStack(p)
    ensures PlaceTokens(p) <= HoleTokens(h) + Tokens(v)
  {
    hide Text, Tokens, HoleText, HoleTokens, PlaceText, PlaceTokens, Plug, ItemsFit, MembersFit, Depth, ValidValue;
    v := p.v;
    h := match p
      case AtEnd(pre, _) => Top(pre)
      case AfterItem(o, items, pre, _) => InArray(o, items, pre)
      case AfterMember(o, members, pre, key, mid, gap, _) => InObject(o, members, pre, key, mid, gap);
    assert p == Fill(h, v);
    FillFacts(h, v);
    assert PlaceText(p) + [] == PlaceText(p);
  }

  lemma {:induction false} FinishEntered(p: Place) returns (h: Hole)
    requires ValidPlace(p) && BeforeValue(p) && !(p.BeforeItem? && p.items == [])
    ensures Finish(p) == Plug(h, ZERO_VALUE) && ValidHole(h) && Fits(ZERO_VALUE, |HoleStack(h)|)
    ensures HoleText(h) + Text(ZERO_VALUE) == PlaceText(p) + Filling(p) && HoleStack(h) == PlaceStack(p)
    ensures PlaceTokens(p) <= HoleTokens(h) + Tokens(ZERO_VALUE)
  {
    hide HoleText, HoleTokens, PlaceText, PlaceTokens, Plug, ItemsFit, MembersFit;
    h := Enter(p, []);
    EnterFacts(p, []);
    assert PlaceText(p) + [] == PlaceText(p);
    ZeroFacts();
  }

  lemma {:induction false} ZeroFacts()
    ensures Text(ZERO_VALUE) == [ZERO] && ValidValue(ZERO_VALUE) && Depth(ZERO_VALUE) == 0
  {
  }

  lemma {:induction false} FinishKey(p: Place) returns (h: Hole)
    requires ValidPlace(p) && p.BeforeKey? && p.members != []
    ensures Finish(p) == Plug(h, ZERO_VALUE) && ValidHole(h) && Fits(ZERO_VALUE, |HoleStack(h)|)
    ensures HoleText(h) + Text(ZERO_VALUE) == PlaceText(p) + Filling(p) && HoleStack(h) == PlaceStack(p)
    ensures PlaceTokens(p) <= HoleTokens(h) + Tokens(ZERO_VALUE)
  {
    hide HoleText, HoleTokens, HoleStack, PlaceText, PlaceTokens, Plug, MembersFit, CommaMembers, SeqMemberTokens;
    AfterKeyFacts(p, [], [], []);
    var q := AfterKey(p.outer, p.members, [], [], []);
    h := FinishEntered(q);
    ZeroFacts();
    assert KeyText([], [], []) == [QUOTE, QUOTE, COLON];
    assert PlaceText(p) + [QUOTE, QUOTE, COLON] + [ZERO] == PlaceText(p) + Filling(p);
  }

  // What is filled in and the brackets outside the hole make up the completion.
  lemma {:induction false} FillingCompletes(p: Place)
    ensures var outside := if ClosesItself(p) then Pop(PlaceStack(p)) else PlaceStack(p);
      Filling(p) + Closers(outside) == Completion(Config(0, PlaceState(p), PlaceStack(p)))
  {
    hide HoleStack, Closers;
    if p.AtStart? || p.AtEnd? || ClosesItself(p) {
      assert Filling(p) == Owed(PlaceState(p));
    } else {
      var isArray := OpenArray(p);
      var closer: seq<Byte> := [if isArray then RBRACKET else RBRACE];
      PoppedClosers(p.outer, isArray);
      assert PlaceStack(p) == HoleStack(p.outer) + [isArray];
      assert Filling(p) + closer == Owed(PlaceState(p));
      assert Filling(p) + (closer + Closers(HoleStack(p.outer))) == Filling(p) + closer + Closers(HoleStack(p.outer));
    }
  }

  lemma {:induction false} PoppedClosers(o: Hole, isArray: bool)
    ensures Pop(HoleStack(o) + [isArray]) == HoleStack(o)
    ensures Closers(HoleStack(o) + [isArray]) == [if isArray then RBRACKET else RBRACE] + Closers(HoleStack(o))
  {
    var stack := HoleStack(o) + [isArray];
    assert stack[..|stack| - 1] == HoleStack(o);
  }

  lemma {:induction false} CompletionIsAscii(c: Config)
    ensures forall i :: 0 <= i < |Completion(c)| ==> Completion(c)[i] <= 0x7F
  {
    ClosersAreAscii(Pop(c.stack));
  }

  lemma {:induction false} ClosersAreAscii(stack: seq<bool>)
    ensures forall i :: 0 <= i < |Closers(stack)| ==> Closers(stack)[i] <= 0x7F
    decreases |stack|
  {
    if stack != [] {
      ClosersAreAscii(stack[..|stack| - 1]);
    }
  }

  // The cursor always stands behind an ASCII byte, hence at a character boundary.
  lemma {:induction false} ConsumedIsWellFormed(s: seq<Byte>, n: nat)
    requires Passes(s, n).Some? && Utf8.WellFormed(s)
    ensures Utf8.WellFormed(s[..Passes(s, n).value.0.offset])
  {
    var c := Passes(s, n).value.0;
    if n > 0 {
      hide Pass;
      var before := Passes(s, n - 1).value.0;
      PassEndsAscii(s, before);
      Utf8.BoundaryAfterAscii(s, c.offset - 1);
      Utf8.SplitAt(s, c.offset);
    }
  }

  lemma {:induction false} PassEndsAscii(s: seq<Byte>, c: Config)
    requires Consistent(s, c) && Pass(s, c).Advanced?
    ensures s[Pass(s, c).next.offset - 1] <= 0x7F
  {
    hide ScanBody, ScanNumber, StackMatches, SkipWs, AfterValue, Pop;
    var d := c.(offset := SkipWs(s, c.offset));
    if s[d.offset] == QUOTE {
      var _ := ScanBodySound(s, d.offset + 1, false);
    } else if s[d.offset] == MINUS || Digit(s[d.offset]) {
      NumberEndsDigit(s, d.offset);
    }
  }
}
