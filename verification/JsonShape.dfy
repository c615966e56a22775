// The reported tokens determine the parse tree up to whitespace.
module JsonShape {
  import opened Bytes
  import opened JsonGrammar
  import opened JsonMachine
  import JsonComplete

  // A tree without its whitespace.
  datatype Shape =
    | Leaf(token: Token)
    | ArrayOf(elements: seq<Shape>)
    | ObjectOf(members: seq<Pair>)

  datatype Pair = Pair(key: Token, value: Shape)

  function ShapeOf(v: Value): Shape {
    match v
    case Null => Leaf(NullToken)
    case Bool(b) => Leaf(BooleanToken(b))
    case Num(n) => Leaf(NumberToken(NumberText(n)))
    case Str(us) => Leaf(StrToken(us))
    case EmptyArray(_) => ArrayOf([])
    case Array(items) => ArrayOf(ItemShapes(items))
    case EmptyObject(_) => ObjectOf([])
    case Object(members) => ObjectOf(MemberShapes(members))
  }

  function ItemShapes(items: Items): (r: seq<Shape>)
    ensures |r| > 0
  {
    match items
    case LastItem(i) => [ShapeOf(i.value)]
    case MoreItems(i, rest) => [ShapeOf(i.value)] + ItemShapes(rest)
  }

  function MemberShapes(members: Members): (r: seq<Pair>)
    ensures |r| > 0
  {
    match members
    case LastMember(m) => [Pair(KeyToken(m.key), ShapeOf(m.value))]
    case MoreMembers(m, rest) => [Pair(KeyToken(m.key), ShapeOf(m.value))] + MemberShapes(rest)
  }

  // The tokens of a shape.
  function ShapeTokens(s: Shape): seq<Token> {
    match s
    case Leaf(t) => [t]
    case ArrayOf(es) => [ArrayStart] + ElementTokens(es) + [ArrayEnd]
    case ObjectOf(ms) => [ObjectStart] + PairTokens(ms) + [ObjectEnd]
  }

  function ElementTokens(es: seq<Shape>): seq<Token> {
    if es == [] then [] else ShapeTokens(es[0]) + ElementTokens(es[1..])
  }

  function PairTokens(ms: seq<Pair>): seq<Token> {
    if ms == [] then [] else MemberTokensOf(ms[0]) + PairTokens(ms[1..])
  }

  function MemberTokensOf(p: Pair): seq<Token> {
    [p.key] + ShapeTokens(p.value)
  }

  lemma {:induction false} TokensOfShape(v: Value)
    ensures Tokens(v) == ShapeTokens(ShapeOf(v))
  {
    match v {
      case Array(items) => ItemsTokensOfShape(items);
      case Object(members) => MembersTokensOfShape(members);
      case _ =>
    }
  }

  lemma {:induction false} ItemsTokensOfShape(items: Items)
    ensures ItemsTokens(items) == ElementTokens(ItemShapes(items))
  {
    TokensOfShape(items.item.value);
    var es := ItemShapes(items);
    if items.MoreItems? {
      ItemsTokensOfShape(items.rest);
      assert es[1..] == ItemShapes(items.rest);
    } else {
      assert es[1..] == [];
    }
  }

  lemma {:induction false} MembersTokensOfShape(members: Members)
    ensures MembersTokens(members) == PairTokens(MemberShapes(members))
  {
    TokensOfShape(members.member.value);
    var ms := MemberShapes(members);
    if members.MoreMembers? {
      MembersTokensOfShape(members.rest);
      assert ms[1..] == MemberShapes(members.rest);
    } else {
      assert ms[1..] == [];
    }
  }

  // Two trees report the same tokens exactly when they are equal up to whitespace.
  lemma TokensDetermineTree(v: Value, w: Value)
    ensures Tokens(v) == Tokens(w) <==> ShapeOf(v) == ShapeOf(w)
  {
    TokensOfShape(v);
    TokensOfShape(w);
    if Tokens(v) == Tokens(w) {
      Unique(v, w, [], []);
    }
  }

  // Printing a document with any whitespace and tokenizing the print gives its tree back:
  // no other tree, printed in any way, has the same tokens.
  lemma PrintThenTokenize(d: Document, e: Document)
    requires ValidDocument(d) && Depth(d.value) <= MAX_DEPTH
    requires ValidDocument(e) && Depth(e.value) <= MAX_DEPTH
    ensures Accepts(DocumentText(d), Tokens(d.value)) && Accepts(DocumentText(e), Tokens(e.value))
    ensures (exists tokens: seq<Token> :: Accepts(DocumentText(d), tokens) && Accepts(DocumentText(e), tokens))
            <==> ShapeOf(d.value) == ShapeOf(e.value)
    ensures DocumentText(d) == DocumentText(e) ==> ShapeOf(d.value) == ShapeOf(e.value)
  {
    JsonComplete.DocumentIsAccepted(d);
    JsonComplete.DocumentIsAccepted(e);
    TokensDetermineTree(d.value, e.value);
  }

  predicate ValueStartToken(t: Token) {
    !t.ArrayEnd? && !t.ObjectEnd?
  }

  lemma {:induction false} FirstToken(v: Value)
    ensures |Tokens(v)| > 0 && ValueStartToken(Tokens(v)[0])
  {
  }

  lemma {:induction false} FirstItemToken(items: Items)
    ensures |ItemsTokens(items)| > 0 && ValueStartToken(ItemsTokens(items)[0])
  {
    FirstToken(items.item.value);
  }

  lemma {:induction false} FirstMemberToken(members: Members)
    ensures |MembersTokens(members)| > 0 && ValueStartToken(MembersTokens(members)[0])
  {
  }

  // The first tree can be read off any token sequence that starts with one.
  lemma {:induction false} Unique(v: Value, w: Value, r: seq<Token>, t: seq<Token>)
    requires Tokens(v) + r == Tokens(w) + t
    ensures ShapeOf(v) == ShapeOf(w) && r == t
    decreases v
  {
    FirstToken(v);
    FirstToken(w);
    assert (Tokens(v) + r)[0] == Tokens(v)[0] && (Tokens(w) + t)[0] == Tokens(w)[0];
    match v {
      case EmptyArray(_) => ArraysUnique(v, w, r, t);
      case Array(_) => ArraysUnique(v, w, r, t);
      case EmptyObject(_) => ObjectsUnique(v, w, r, t);
      case Object(_) => ObjectsUnique(v, w, r, t);
      case _ =>
        assert Tokens(w) == [Tokens(w)[0]];
        assert (Tokens(v) + r)[1..] == r && (Tokens(w) + t)[1..] == t;
    }
  }

  predicate IsObject(v: Value) {
    v.EmptyObject? || v.Object?
  }

  function ArrayRest(v: Value): seq<Token>
    requires JsonComplete.IsArray(v)
  {
    (if v.Array? then ItemsTokens(v.items) else []) + [ArrayEnd]
  }

  function ObjectRest(v: Value): seq<Token>
    requires IsObject(v)
  {
    (if v.Object? then MembersTokens(v.members) else []) + [ObjectEnd]
  }

  lemma {:induction false} ArraysUnique(v: Value, w: Value, r: seq<Token>, t: seq<Token>)
    requires Tokens(v) + r == Tokens(w) + t && JsonComplete.IsArray(v) && JsonComplete.IsArray(w)
    ensures ShapeOf(v) == ShapeOf(w) && r == t
    decreases v, 0
  {
    assert Tokens(v) == [ArrayStart] + ArrayRest(v) && Tokens(w) == [ArrayStart] + ArrayRest(w);
    assert (Tokens(v) + r)[1..] == ArrayRest(v) + r && (Tokens(w) + t)[1..] == ArrayRest(w) + t;
    assert (ArrayRest(v) + r)[0] == ArrayRest(v)[0] && (ArrayRest(w) + t)[0] == ArrayRest(w)[0];
    if v.Array? { FirstItemToken(v.items); }
    if w.Array? { FirstItemToken(w.items); }
    if v.Array? {
      ItemsUnique(v.items, w.items, r, t);
    } else {
      assert ArrayRest(v) == [ArrayEnd] && ArrayRest(w) == [ArrayEnd];
      assert ([ArrayEnd] + r)[1..] == r && ([ArrayEnd] + t)[1..] == t;
    }
  }

  lemma {:induction false} ObjectsUnique(v: Value, w: Value, r: seq<Token>, t: seq<Token>)
    requires Tokens(v) + r == Tokens(w) + t && IsObject(v) && IsObject(w)
    ensures ShapeOf(v) == ShapeOf(w) && r == t
    decreases v, 0
  {
    assert Tokens(v) == [ObjectStart] + ObjectRest(v) && Tokens(w) == [ObjectStart] + ObjectRest(w);
    assert (Tokens(v) + r)[1..] == ObjectRest(v) + r && (Tokens(w) + t)[1..] == ObjectRest(w) + t;
    assert (ObjectRest(v) + r)[0] == ObjectRest(v)[0] && (ObjectRest(w) + t)[0] == ObjectRest(w)[0];
    if v.Object? { FirstMemberToken(v.members); }
    if w.Object? { FirstMemberToken(w.members); }
    if v.Object? {
      MembersUnique(v.members, w.members, r, t);
    } else {
      assert ObjectRest(v) == [ObjectEnd] && ObjectRest(w) == [ObjectEnd];
      assert ([ObjectEnd] + r)[1..] == r && ([ObjectEnd] + t)[1..] == t;
    }
  }

  lemma {:induction false} ItemsUnique(a: Items, b: Items, r: seq<Token>, t: seq<Token>)
    requires ItemsTokens(a) + [ArrayEnd] + r == ItemsTokens(b) + [ArrayEnd] + t
    ensures ItemShapes(a) == ItemShapes(b) && r == t
    decreases a
  {
    hide Tokens, ShapeOf;
    var x := if a.LastItem? then [ArrayEnd] + r else ItemsTokens(a.rest) + [ArrayEnd] + r;
    var y := if b.LastItem? then [ArrayEnd] + t else ItemsTokens(b.rest) + [ArrayEnd] + t;
    assert ItemsTokens(a) + [ArrayEnd] + r == Tokens(a.item.value) + x;
    assert ItemsTokens(b) + [ArrayEnd] + t == Tokens(b.item.value) + y;
    Unique(a.item.value, b.item.value, x, y);
    if a.MoreItems? { FirstItemToken(a.rest); assert x[0] == ItemsTokens(a.rest)[0]; }
    if b.MoreItems? { FirstItemToken(b.rest); assert y[0] == ItemsTokens(b.rest)[0]; }
    if a.MoreItems? {
      ItemsUnique(a.rest, b.rest, r, t);
    } else {
      assert x[1..] == r && y[1..] == t;
    }
  }

  lemma {:induction false} MembersUnique(a: Members, b: Members, r: seq<Token>, t: seq<Token>)
    requires MembersTokens(a) + [ObjectEnd] + r == MembersTokens(b) + [ObjectEnd] + t
    ensures MemberShapes(a) == MemberShapes(b) && r == t
    decreases a
  {
    hide Tokens, ShapeOf, KeyToken;
    var x := if a.LastMember? then [ObjectEnd] + r else MembersTokens(a.rest) + [ObjectEnd] + r;
    var y := if b.LastMember? then [ObjectEnd] + t else MembersTokens(b.rest) + [ObjectEnd] + t;
    var u := MembersTokens(a) + [ObjectEnd] + r;
    assert u == [KeyToken(a.member.key)] + (Tokens(a.member.value) + x);
    assert u == [KeyToken(b.member.key)] + (Tokens(b.member.value) + y);
    assert u[0] == KeyToken(a.member.key) && u[0] == KeyToken(b.member.key);
    assert u[1..] == Tokens(a.member.value) + x && u[1..] == Tokens(b.member.value) + y;
    Unique(a.member.value, b.member.value, x, y);
    if a.MoreMembers? { FirstMemberToken(a.rest); assert x[0] == MembersTokens(a.rest)[0]; }
    if b.MoreMembers? { FirstMemberToken(b.rest); assert y[0] == MembersTokens(b.rest)[0]; }
    if a.MoreMembers? {
      MembersUnique(a.rest, b.rest, r, t);
    } else {
      assert x[1..] == r && y[1..] == t;
    }
  }
}
