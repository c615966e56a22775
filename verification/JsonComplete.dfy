// Every JSON text that nests at most MAX_DEPTH deep is accepted, with the tokens of its tree.
module JsonComplete {
  import opened Bytes
  import opened JsonError
  import opened JsonGrammar
  import opened JsonScan
  import opened JsonMachine

  predicate ExpectsValue(state: State) {
    state == Start || state == ObjectValue || state == ArrayNextValue || state == ArrayFirstValue
  }

  // If the value `v` that ends at `q` is a number, it does not go on.
  predicate Delimited(s: seq<Byte>, q: nat, v: Value)
    requires q <= |s|
  {
    v.Num? && q < |s| ==> !GoesOn(v.number, s[q])
  }

  // The configuration after a value that ends at `q`.
  function After(c: Config, q: nat): Config {
    Config(q, AfterValue(c.stack), c.stack)
  }

  // A pass looks at the first byte that is not whitespace.
  lemma {:induction false} PassOverWs(s: seq<Byte>, c: Config, p: nat)
    requires Consistent(s, c) && c.offset <= p < |s|
    requires AllWs(s[c.offset..p]) && !Ws(s[p])
    ensures Consistent(s, c.(offset := p)) && Pass(s, c) == PassAt(s, c.(offset := p))
  {
    SkipWsUnique(s, c.offset, p);
  }

  lemma {:induction false} ValueStart(v: Value)
    requires ValidValue(v)
    ensures |Text(v)| > 0
    ensures var b := Text(v)[0]; !Ws(b) && b != RBRACKET
  {
  }

  lemma {:induction false} ScalarPass(s: seq<Byte>, c: Config, v: Value, q: nat)
    requires Consistent(s, c) && c.offset <= q <= |s| && ValidValue(v)
    requires v.Null? || v.Bool? || v.Num? || v.Str?
    requires s[c.offset..q] == Text(v) && Delimited(s, q, v)
    ensures c.offset < |s| && |Tokens(v)| == 1
    ensures ScanValue(s, c) == Advanced(After(c, q), Some(Tokens(v)[0]))
  {
    hide ScanBody, ScanNumber, NumberText, StringText, ValidNumber, ValidBody, BodyText;
    FirstByte(s, c.offset, q, Text(v));
    match v {
      case Null =>
      case Bool(_) =>
      case Num(n) =>
        ScanNumberComplete(s, c.offset, q, n);
        NumberStart(n);
      case Str(us) =>
        StringScan(s, c.offset, q, us);
    }
  }

  lemma {:induction false} NumberStart(n: Number)
    requires ValidNumber(n)
    ensures |NumberText(n)| > 0 && (NumberText(n)[0] == MINUS || Digit(NumberText(n)[0]))
  {
  }

  lemma {:induction false} StringScan(s: seq<Byte>, p: nat, q: nat, us: Body)
    requires p <= q <= |s| && ValidBody(us) && s[p..q] == StringText(us)
    ensures p + 1 < q && s[p] == QUOTE
    ensures ScanBody(s, p + 1, false) == Ok((q - 1, Escaped(us))) && s[p + 1..q - 1] == BodyText(us)
  {
    Bracketed(s, p, q, QUOTE, BodyText(us), QUOTE);
    ScanBodyComplete(s, p + 1, q - 1, us, false);
  }

  // One pass of an uninterrupted run.
  lemma {:induction false} RunOn(s: seq<Byte>, c: Config, d: Config, token: Option<Token>, seen: seq<Token>)
    requires Consistent(s, c) && Pass(s, c) == Advanced(d, token)
    ensures Consistent(s, d)
    ensures Run(s, c, NEVER, seen) == Run(s, d, NEVER, seen + if token.Some? then [token.value] else [])
  {
    assert seen + [] == seen;
  }

  // An uninterrupted run over whitespace and a closing bracket.
  lemma {:induction false} CloseRun(s: seq<Byte>, c: Config, q: nat, seen: seq<Token>)
    requires Consistent(s, c) && c.offset <= q < |s| && AllWs(s[c.offset..q])
    requires if c.state == ArrayFirstValue || c.state == ArrayComma then s[q] == RBRACKET
             else (c.state == ObjectFirstKey || c.state == ObjectComma) && s[q] == RBRACE
    ensures Run(s, c, NEVER, seen)
         == Run(s, Closed(c, q + 1), NEVER, seen + [if s[q] == RBRACKET then ArrayEnd else ObjectEnd])
  {
    PassOverWs(s, c, q);
    RunOn(s, c, Closed(c, q + 1), Some(if s[q] == RBRACKET then ArrayEnd else ObjectEnd), seen);
  }

  // An uninterrupted run over whitespace and a comma.
  lemma {:induction false} CommaRun(s: seq<Byte>, c: Config, k: nat, seen: seq<Token>)
    requires Consistent(s, c) && c.offset <= k < |s| && AllWs(s[c.offset..k]) && s[k] == COMMA
    requires c.state == ArrayComma || c.state == ObjectComma
    ensures var next := if c.state == ArrayComma then ArrayNextValue else ObjectNextKey;
      Run(s, c, NEVER, seen) == Run(s, Config(k + 1, next, c.stack), NEVER, seen)
  {
    PassOverWs(s, c, k);
    RunOn(s, c, Config(k + 1, if c.state == ArrayComma then ArrayNextValue else ObjectNextKey, c.stack), None, seen);
    assert seen + [] == seen;
  }

  lemma {:induction false} ScalarRun(s: seq<Byte>, c: Config, p: nat, v: Value, q: nat, seen: seq<Token>)
    requires Consistent(s, c) && ExpectsValue(c.state) && c.offset <= p <= q <= |s|
    requires ValidValue(v) && (v.Null? || v.Bool? || v.Num? || v.Str?)
    requires AllWs(s[c.offset..p]) && s[p..q] == Text(v) && Delimited(s, q, v)
    ensures Run(s, c, NEVER, seen) == Run(s, After(c, q), NEVER, seen + Tokens(v))
  {
    ValueStart(v);
    FirstByte(s, p, q, Text(v));
    PassOverWs(s, c, p);
    ScalarPass(s, c.(offset := p), v, q);
    assert Tokens(v) == [Tokens(v)[0]];
    RunOn(s, c, After(c, q), Some(Tokens(v)[0]), seen);
  }

  lemma {:induction false} OpenRun(s: seq<Byte>, c: Config, p: nat, isArray: bool, seen: seq<Token>)
    requires Consistent(s, c) && ExpectsValue(c.state) && c.offset <= p < |s| && |c.stack| < MAX_DEPTH
    requires AllWs(s[c.offset..p]) && s[p] == (if isArray then LBRACKET else LBRACE)
    ensures Consistent(s, Opened(c, p, isArray))
    ensures Run(s, c, NEVER, seen)
         == Run(s, Opened(c, p, isArray), NEVER, seen + [if isArray then ArrayStart else ObjectStart])
  {
    PassOverWs(s, c, p);
    RunOn(s, c, Opened(c, p, isArray), Some(if isArray then ArrayStart else ObjectStart), seen);
  }

  // The configuration after a bracket at `p` opened a container.
  function Opened(c: Config, p: nat, isArray: bool): Config {
    Config(p + 1, if isArray then ArrayFirstValue else ObjectFirstKey, c.stack + [isArray])
  }

  // The configuration after the innermost container was closed just before `q`.
  function Closed(c: Config, q: nat): Config {
    Config(q, AfterValue(Pop(c.stack)), Pop(c.stack))
  }

  // The whole of a value is consumed, and its tokens are reported.
  lemma {:induction false} ValueComplete(s: seq<Byte>, c: Config, p: nat, v: Value, q: nat, seen: seq<Token>)
    requires Consistent(s, c) && ExpectsValue(c.state) && c.offset <= p <= q <= |s|
    requires ValidValue(v) && |c.stack| + Depth(v) <= MAX_DEPTH
    requires AllWs(s[c.offset..p]) && s[p..q] == Text(v) && Delimited(s, q, v)
    ensures Run(s, c, NEVER, seen) == Run(s, After(c, q), NEVER, seen + Tokens(v))
    decreases v, 1
  {
    hide Run, Pass, Text, ValidValue, Tokens, InnerTokens, Inner;
    if v.Null? || v.Bool? || v.Num? || v.Str? {
      ScalarRun(s, c, p, v, q, seen);
    } else {
      ContainerParts(s, p, v, q);
      var open := if IsArray(v) then ArrayStart else ObjectStart;
      var d := Opened(c, p, IsArray(v));
      OpenRun(s, c, p, IsArray(v), seen);
      ContainerComplete(s, d, v, q, seen + [open]);
      assert Pop(d.stack) == c.stack;
      assert seen + [open] + InnerTokens(v) == seen + Tokens(v);
    }
  }

  predicate IsArray(v: Value) {
    v.EmptyArray? || v.Array?
  }

  predicate IsContainer(v: Value) {
    v.EmptyArray? || v.Array? || v.EmptyObject? || v.Object?
  }

  function Inner(v: Value): seq<Byte>
    requires IsContainer(v)
  {
    match v
    case EmptyArray(ws) => ws
    case EmptyObject(ws) => ws
    case Array(items) => ItemsText(items)
    case Object(members) => MembersText(members)
  }

  // The tokens of a container after its opening one.
  function InnerTokens(v: Value): seq<Token>
    requires IsContainer(v)
  {
    match v
    case EmptyArray(ws) => [ArrayEnd]
    case EmptyObject(ws) => [ObjectEnd]
    case Array(items) => ItemsTokens(items) + [ArrayEnd]
    case Object(members) => MembersTokens(members) + [ObjectEnd]
  }

  lemma {:induction false} ContainerParts(s: seq<Byte>, p: nat, v: Value, q: nat)
    requires p <= q <= |s| && IsContainer(v) && s[p..q] == Text(v)
    ensures Tokens(v) == [if IsArray(v) then ArrayStart else ObjectStart] + InnerTokens(v)
    ensures p + 1 < q && s[p] == (if IsArray(v) then LBRACKET else LBRACE)
    ensures s[q - 1] == (if IsArray(v) then RBRACKET else RBRACE)
    ensures s[p + 1..q - 1] == Inner(v)
  {
    hide ItemsText, MembersText, ItemsTokens, MembersTokens;
    var left: Byte := if IsArray(v) then LBRACKET else LBRACE;
    var right: Byte := if IsArray(v) then RBRACKET else RBRACE;
    assert Text(v) == [left] + Inner(v) + [right];
    Bracketed(s, p, q, left, Inner(v), right);
  }

  lemma {:induction false} Bracketed(s: seq<Byte>, p: nat, q: nat, left: Byte, inner: seq<Byte>, right: Byte)
    requires p <= q <= |s| && s[p..q] == [left] + inner + [right]
    ensures p + 1 < q && s[p] == left && s[q - 1] == right && s[p + 1..q - 1] == inner
  {
    SplitSlice(s, p, q, [left] + inner, [right]);
    SplitSlice(s, p, q - 1, [left], inner);
    FirstByte(s, p, p + 1, [left]);
    FirstByte(s, q - 1, q, [right]);
  }

  // The rest of a container is consumed from the configuration after its opening bracket.
  lemma {:induction false} ContainerComplete(s: seq<Byte>, d: Config, v: Value, q: nat, seen: seq<Token>)
    requires IsContainer(v) && ValidValue(v) && |d.stack| - 1 + Depth(v) <= MAX_DEPTH
    requires Consistent(s, d) && d.state == (if IsArray(v) then ArrayFirstValue else ObjectFirstKey)
    requires d.offset < q <= |s| && s[d.offset..q - 1] == Inner(v)
    requires s[q - 1] == (if IsArray(v) then RBRACKET else RBRACE)
    ensures Run(s, d, NEVER, seen) == Run(s, Closed(d, q), NEVER, seen + InnerTokens(v))
    decreases v, 0
  {
    hide Run, Pass, ValidItems, ValidMembers, ItemsTokens, MembersTokens, ItemsText, MembersText;
    match v {
      case EmptyArray(ws) =>
        CloseRun(s, d, q - 1, seen);
      case EmptyObject(ws) =>
        CloseRun(s, d, q - 1, seen);
      case Array(items) =>
        ItemsComplete(s, d, items, q - 1, seen);
        assert seen + ItemsTokens(items) + [ArrayEnd] == seen + InnerTokens(v);
      case Object(members) =>
        MembersComplete(s, d, members, q - 1, seen);
        assert seen + MembersTokens(members) + [ObjectEnd] == seen + InnerTokens(v);
    }
  }

  // A byte that may follow a value in a JSON text cannot continue a number.
  lemma {:induction false} DelimitedByWs(s: seq<Byte>, e: nat, q: nat, v: Value)
    requires e <= q < |s| && AllWs(s[e..q])
    requires s[q] == COMMA || s[q] == RBRACKET || s[q] == RBRACE
    ensures Delimited(s, e, v)
  {
    if e < q { FirstByte(s, e, q, s[e..q]); assert Ws(s[e..q][0]); }
  }

  lemma {:induction false} ItemParts(s: seq<Byte>, a: nat, i: Item, k: nat) returns (p: nat, e: nat)
    requires a <= k <= |s| && s[a..k] == ItemText(i) && ValidItem(i)
    ensures a <= p < e <= k && AllWs(s[a..p]) && s[p..e] == Text(i.value) && AllWs(s[e..k])
  {
    SplitSlice(s, a, k, i.pre + Text(i.value), i.post);
    e := a + |i.pre + Text(i.value)|;
    SplitSlice(s, a, e, i.pre, Text(i.value));
    p := a + |i.pre|;
    ValueStart(i.value);
  }

  // Where the first of several items ends, and its comma.
  lemma {:induction false} MoreParts(s: seq<Byte>, a: nat, first: seq<Byte>, rest: seq<Byte>, q: nat) returns (k: nat)
    requires a <= q <= |s| && s[a..q] == first + [COMMA] + rest
    ensures a <= k < q && s[a..k] == first && s[k] == COMMA && s[k + 1..q] == rest
  {
    SplitSlice(s, a, q, first + [COMMA], rest);
    k := a + |first|;
    SplitSlice(s, a, k + 1, first, [COMMA]);
    FirstByte(s, k, k + 1, [COMMA]);
  }

  lemma {:induction false} ItemsComplete(s: seq<Byte>, c: Config, items: Items, q: nat, seen: seq<Token>)
    requires Consistent(s, c) && (c.state == ArrayFirstValue || c.state == ArrayNextValue)
    requires c.offset <= q < |s| && s[q] == RBRACKET
    requires ValidItems(items) && |c.stack| + ItemsDepth(items) <= MAX_DEPTH
    requires s[c.offset..q] == ItemsText(items)
    ensures Run(s, c, NEVER, seen) == Run(s, Closed(c, q + 1), NEVER, seen + ItemsTokens(items) + [ArrayEnd])
    decreases items, 0
  {
    hide Run, Pass, ItemText, Tokens, ValidValue, Depth, Text;
    match items {
      case LastItem(i) =>
        var p, e := ItemParts(s, c.offset, i, q);
        DelimitedByWs(s, e, q, i.value);
        ValueComplete(s, c, p, i.value, e, seen);
        CloseRun(s, After(c, e), q, seen + Tokens(i.value));
      case MoreItems(i, rest) =>
        var k := MoreParts(s, c.offset, ItemText(i), ItemsText(rest), q);
        var p, e := ItemParts(s, c.offset, i, k);
        DelimitedByWs(s, e, k, i.value);
        ValueComplete(s, c, p, i.value, e, seen);
        CommaRun(s, After(c, e), k, seen + Tokens(i.value));
        ItemsComplete(s, Config(k + 1, ArrayNextValue, c.stack), rest, q, seen + Tokens(i.value));
        assert seen + Tokens(i.value) + ItemsTokens(rest) == seen + ItemsTokens(items);
    }
  }

  lemma {:induction false} MembersComplete(s: seq<Byte>, c: Config, members: Members, q: nat, seen: seq<Token>)
    requires Consistent(s, c) && (c.state == ObjectFirstKey || c.state == ObjectNextKey)
    requires c.offset <= q < |s| && s[q] == RBRACE
    requires ValidMembers(members) && |c.stack| + MembersDepth(members) <= MAX_DEPTH
    requires s[c.offset..q] == MembersText(members)
    ensures Run(s, c, NEVER, seen) == Run(s, Closed(c, q + 1), NEVER, seen + MembersTokens(members) + [ObjectEnd])
    decreases members, 0
  {
    hide Run, Pass, MemberText, MemberTokens, ValidMember, Depth;
    match members {
      case LastMember(m) =>
        var e := MemberComplete(s, c, m, q, seen);
        CloseRun(s, After(c, e), q, seen + MemberTokens(m));
      case MoreMembers(m, rest) =>
        var k := MoreParts(s, c.offset, MemberText(m), MembersText(rest), q);
        var e := MemberComplete(s, c, m, k, seen);
        CommaRun(s, After(c, e), k, seen + MemberTokens(m));
        MembersComplete(s, Config(k + 1, ObjectNextKey, c.stack), rest, q, seen + MemberTokens(m));
        assert seen + MemberTokens(m) + MembersTokens(rest) == seen + MembersTokens(members);
    }
  }

  // A member is consumed up to the end of its value, which only whitespace separates from `k`.
  lemma {:induction false} MemberComplete(s: seq<Byte>, c: Config, m: Member, k: nat, seen: seq<Token>) returns (e: nat)
    requires Consistent(s, c) && (c.state == ObjectFirstKey || c.state == ObjectNextKey) && c.offset <= k < |s|
    requires s[k] == COMMA || s[k] == RBRACE
    requires ValidMember(m) && |c.stack| + Depth(m.value) <= MAX_DEPTH
    requires s[c.offset..k] == MemberText(m)
    ensures c.offset < e <= k && AllWs(s[e..k])
    ensures Run(s, c, NEVER, seen) == Run(s, After(c, e), NEVER, seen + MemberTokens(m))
    decreases m, 1
  {
    hide Run, Pass;
    var p, r, g := MemberParts(s, c.offset, m, k);
    var v;
    v, e := ItemParts(s, g, Item(m.gap, m.value, m.post), k);
    var d := Config(g, ObjectValue, c.stack);
    KeyPass(s, c, m.key, p, r, g);
    RunOn(s, c, d, Some(KeyToken(m.key)), seen);
    DelimitedByWs(s, e, k, m.value);
    ValueComplete(s, d, v, m.value, e, seen + [KeyToken(m.key)]);
    assert seen + [KeyToken(m.key)] + Tokens(m.value) == seen + MemberTokens(m);
  }

  // The positions of the name, the byte after it, and the byte after the colon.
  lemma {:induction false} MemberParts(s: seq<Byte>, a: nat, m: Member, k: nat) returns (p: nat, r: nat, g: nat)
    requires a <= k <= |s| && s[a..k] == MemberText(m) && ValidMember(m)
    ensures a <= p < r < g <= k && AllWs(s[a..p]) && s[p..r] == StringText(m.key)
    ensures AllWs(s[r..g - 1]) && s[g - 1] == COLON
    ensures s[g..k] == ItemText(Item(m.gap, m.value, m.post))
  {
    hide Text, ValidBody, BodyText;
    var name := m.pre + StringText(m.key);
    var value := ItemText(Item(m.gap, m.value, m.post));
    assert MemberText(m) == name + m.mid + [COLON] + value;
    SplitSlice(s, a, k, name + m.mid + [COLON], value);
    g := a + |name + m.mid| + 1;
    SplitSlice(s, a, g, name + m.mid, [COLON]);
    FirstByte(s, g - 1, g, [COLON]);
    SplitSlice(s, a, g - 1, name, m.mid);
    r := a + |name|;
    SplitSlice(s, a, r, m.pre, StringText(m.key));
    p := a + |m.pre|;
    assert |StringText(m.key)| >= 2;
  }

  lemma {:induction false} KeyPass(s: seq<Byte>, c: Config, key: Body, p: nat, r: nat, g: nat)
    requires Consistent(s, c) && (c.state == ObjectFirstKey || c.state == ObjectNextKey)
    requires ValidBody(key) && c.offset <= p < r < g <= |s| && AllWs(s[c.offset..p])
    requires s[p..r] == StringText(key) && AllWs(s[r..g - 1]) && s[g - 1] == COLON
    ensures Pass(s, c) == Advanced(Config(g, ObjectValue, c.stack), Some(KeyToken(key)))
  {
    hide ScanBody, ScanValue, StringText, BodyText, Escaped, ScanString, ScanLiteral, Close, AfterValue;
    StringScan(s, p, r, key);
    PassOverWs(s, c, p);
    SkipWsUnique(s, r, g - 1);
  }

  // Completeness: the text of every valid document that is not too deep is accepted, and the
  // visitor is told exactly the linearization of its tree.
  lemma {:induction false} DocumentIsAccepted(d: Document)
    requires ValidDocument(d) && Depth(d.value) <= MAX_DEPTH
    ensures Accepts(DocumentText(d), Tokens(d.value))
  {
    var s := DocumentText(d);
    assert s[0..|s|] == s == ItemText(Item(d.pre, d.value, d.post));
    var p, q := ItemParts(s, 0, Item(d.pre, d.value, d.post), |s|);
    if q < |s| { FirstByte(s, q, |s|, s[q..]); assert Ws(s[q..|s|][0]); }
    ValueComplete(s, INITIAL, p, d.value, q, []);
    SkipWsUnique(s, q, |s|);
    assert [] + Tokens(d.value) == Tokens(d.value);
  }
}
