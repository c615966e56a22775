// The grammar of sections 2 to 7 of RFC 8259 as concrete syntax trees.
//
// A tree keeps its insignificant whitespace, so that `Text` prints every JSON text and a
// byte sequence is a JSON text exactly when it is the print of a valid tree.
module JsonGrammar {
  import opened Bytes

  const QUOTE: Byte := 0x22
  const BACKSLASH: Byte := 0x5C
  const COMMA: Byte := 0x2C
  const COLON: Byte := 0x3A
  const LBRACKET: Byte := 0x5B
  const RBRACKET: Byte := 0x5D
  const LBRACE: Byte := 0x7B
  const RBRACE: Byte := 0x7D
  const MINUS: Byte := 0x2D
  const PLUS: Byte := 0x2B
  const DOT: Byte := 0x2E
  const ZERO: Byte := 0x30
  const TRUE_TEXT: seq<Byte> := [0x74, 0x72, 0x75, 0x65]
  const FALSE_TEXT: seq<Byte> := [0x66, 0x61, 0x6C, 0x73, 0x65]
  const NULL_TEXT: seq<Byte> := [0x6E, 0x75, 0x6C, 0x6C]

  // Whitespace (section 2).

  predicate Ws(b: Byte) {
    b == 0x20 || b == 0x09 || b == 0x0A || b == 0x0D
  }

  predicate AllWs(s: seq<Byte>) {
    forall i :: 0 <= i < |s| ==> Ws(s[i])
  }

  // Numbers (section 6).

  predicate Digit(b: Byte) {
    0x30 <= b <= 0x39
  }

  predicate AllDigits(s: seq<Byte>) {
    forall i :: 0 <= i < |s| ==> Digit(s[i])
  }

  datatype Sign = NoSign | Plus | Minus

  datatype Exponent = Exponent(upper: bool, sign: Sign, digits: seq<Byte>)

  datatype Number = Number(minus: bool, whole: seq<Byte>, frac: Option<seq<Byte>>, exp: Option<Exponent>)

  predicate ValidNumber(n: Number) {
    && |n.whole| > 0 && AllDigits(n.whole) && (n.whole[0] == ZERO ==> |n.whole| == 1)
    && (n.frac.Some? ==> |n.frac.value| > 0 && AllDigits(n.frac.value))
    && (n.exp.Some? ==> |n.exp.value.digits| > 0 && AllDigits(n.exp.value.digits))
  }

  function SignText(s: Sign): seq<Byte> {
    match s case NoSign => [] case Plus => [PLUS] case Minus => [MINUS]
  }

  function FracText(f: Option<seq<Byte>>): seq<Byte> {
    match f case None => [] case Some(d) => [DOT] + d
  }

  function ExpText(e: Option<Exponent>): seq<Byte> {
    match e case None => [] case Some(x) => [if x.upper then 0x45 else 0x65] + SignText(x.sign) + x.digits
  }

  function NumberText(n: Number): seq<Byte> {
    (if n.minus then [MINUS] else []) + n.whole + FracText(n.frac) + ExpText(n.exp)
  }

  // Strings (section 7). The body is a sequence of plain bytes and escape sequences.

  predicate HexDigit(b: Byte) {
    0x30 <= b <= 0x39 || 0x41 <= b <= 0x46 || 0x61 <= b <= 0x66
  }

  // The byte after a backslash in a two-character escape: " \ / b f n r t
  predicate SimpleEscape(b: Byte) {
    b == 0x22 || b == 0x5C || b == 0x2F || b == 0x62 || b == 0x66 || b == 0x6E || b == 0x72 || b == 0x74
  }

  datatype Unit = Plain(b: Byte) | Simple(c: Byte) | Hex(digits: seq<Byte>)

  predicate ValidUnit(u: Unit) {
    match u
    case Plain(b) => b >= 0x20 && b != QUOTE && b != BACKSLASH
    case Simple(c) => SimpleEscape(c)
    case Hex(d) => |d| == 4 && forall i :: 0 <= i < 4 ==> HexDigit(d[i])
  }

  function UnitText(u: Unit): (t: seq<Byte>)
    ensures |t| > 0
  {
    match u
    case Plain(b) => [b]
    case Simple(c) => [BACKSLASH, c]
    case Hex(d) => [BACKSLASH, 0x75] + d
  }

  type Body = seq<Unit>

  predicate ValidBody(us: Body) {
    forall i :: 0 <= i < |us| ==> ValidUnit(us[i])
  }

  predicate Escaped(us: Body) {
    exists i :: 0 <= i < |us| && !us[i].Plain?
  }

  function BodyText(us: Body): seq<Byte> {
    if us == [] then [] else UnitText(us[0]) + BodyText(us[1..])
  }

  function StringText(us: Body): seq<Byte> {
    [QUOTE] + BodyText(us) + [QUOTE]
  }

  // Values, arrays and objects (sections 3 to 5).

  datatype Value =
    | Null
    | Bool(b: bool)
    | Num(number: Number)
    | Str(body: Body)
    | EmptyArray(ws: seq<Byte>)
    | Array(items: Items)
    | EmptyObject(ws: seq<Byte>)
    | Object(members: Members)

  datatype Item = Item(pre: seq<Byte>, value: Value, post: seq<Byte>)
  datatype Items = LastItem(item: Item) | MoreItems(item: Item, rest: Items)

  // `pre "key" mid : gap value post`
  datatype Member = Member(pre: seq<Byte>, key: Body, mid: seq<Byte>, gap: seq<Byte>, value: Value, post: seq<Byte>)
  datatype Members = LastMember(member: Member) | MoreMembers(member: Member, rest: Members)

  datatype Document = Document(pre: seq<Byte>, value: Value, post: seq<Byte>)

  predicate ValidValue(v: Value) {
    match v
    case Null => true
    case Bool(_) => true
    case Num(n) => ValidNumber(n)
    case Str(us) => ValidBody(us)
    case EmptyArray(ws) => AllWs(ws)
    case Array(items) => ValidItems(items)
    case EmptyObject(ws) => AllWs(ws)
    case Object(members) => ValidMembers(members)
  }

  predicate ValidItem(i: Item) {
    AllWs(i.pre) && ValidValue(i.value) && AllWs(i.post)
  }

  predicate ValidItems(items: Items) {
    match items
    case LastItem(i) => ValidItem(i)
    case MoreItems(i, rest) => ValidItem(i) && ValidItems(rest)
  }

  predicate ValidMember(m: Member) {
    AllWs(m.pre) && ValidBody(m.key) && AllWs(m.mid) && AllWs(m.gap) && ValidValue(m.value) && AllWs(m.post)
  }

  predicate ValidMembers(members: Members) {
    match members
    case LastMember(m) => ValidMember(m)
    case MoreMembers(m, rest) => ValidMember(m) && ValidMembers(rest)
  }

  predicate ValidDocument(d: Document) {
    AllWs(d.pre) && ValidValue(d.value) && AllWs(d.post)
  }

  function Text(v: Value): (t: seq<Byte>)
    ensures ValidValue(v) ==> |t| > 0
  {
    match v
    case Null => NULL_TEXT
    case Bool(b) => if b then TRUE_TEXT else FALSE_TEXT
    case Num(n) => NumberText(n)
    case Str(us) => StringText(us)
    case EmptyArray(ws) => [LBRACKET] + ws + [RBRACKET]
    case Array(items) => [LBRACKET] + ItemsText(items) + [RBRACKET]
    case EmptyObject(ws) => [LBRACE] + ws + [RBRACE]
    case Object(members) => [LBRACE] + MembersText(members) + [RBRACE]
  }

  function ItemText(i: Item): seq<Byte> {
    i.pre + Text(i.value) + i.post
  }

  function ItemsText(items: Items): seq<Byte> {
    match items
    case LastItem(i) => ItemText(i)
    case MoreItems(i, rest) => ItemText(i) + [COMMA] + ItemsText(rest)
  }

  function MemberText(m: Member): seq<Byte> {
    m.pre + StringText(m.key) + m.mid + [COLON] + m.gap + Text(m.value) + m.post
  }

  function MembersText(members: Members): seq<Byte> {
    match members
    case LastMember(m) => MemberText(m)
    case MoreMembers(m, rest) => MemberText(m) + [COMMA] + MembersText(rest)
  }

  function DocumentText(d: Document): seq<Byte> {
    d.pre + Text(d.value) + d.post
  }

  // The nesting depth of containers.

  function Max(a: nat, b: nat): nat {
    if a < b then b else a
  }

  function Depth(v: Value): nat {
    match v
    case EmptyArray(_) => 1
    case Array(items) => 1 + ItemsDepth(items)
    case EmptyObject(_) => 1
    case Object(members) => 1 + MembersDepth(members)
    case _ => 0
  }

  function ItemsDepth(items: Items): nat {
    match items
    case LastItem(i) => Depth(i.value)
    case MoreItems(i, rest) => Max(Depth(i.value), ItemsDepth(rest))
  }

  function MembersDepth(members: Members): nat {
    match members
    case LastMember(m) => Depth(m.value)
    case MoreMembers(m, rest) => Max(Depth(m.value), MembersDepth(rest))
  }

  // The tokens that a visitor is told about, and the linearization of a tree.

  datatype Token =
    | ObjectStart | ObjectEnd | ArrayStart | ArrayEnd
    | Key(raw: seq<Byte>) | EscapeKey(raw: seq<Byte>)
    | StringToken(raw: seq<Byte>) | EscapeStringToken(raw: seq<Byte>)
    | NumberToken(text: seq<Byte>) | BooleanToken(value: bool) | NullToken

  function KeyToken(us: Body): Token {
    if Escaped(us) then EscapeKey(BodyText(us)) else Key(BodyText(us))
  }

  function StrToken(us: Body): Token {
    if Escaped(us) then EscapeStringToken(BodyText(us)) else StringToken(BodyText(us))
  }

  function Tokens(v: Value): seq<Token> {
    match v
    case Null => [NullToken]
    case Bool(b) => [BooleanToken(b)]
    case Num(n) => [NumberToken(NumberText(n))]
    case Str(us) => [StrToken(us)]
    case EmptyArray(_) => [ArrayStart, ArrayEnd]
    case Array(items) => [ArrayStart] + ItemsTokens(items) + [ArrayEnd]
    case EmptyObject(_) => [ObjectStart, ObjectEnd]
    case Object(members) => [ObjectStart] + MembersTokens(members) + [ObjectEnd]
  }

  function ItemsTokens(items: Items): seq<Token> {
    match items
    case LastItem(i) => Tokens(i.value)
    case MoreItems(i, rest) => Tokens(i.value) + ItemsTokens(rest)
  }

  function MemberTokens(m: Member): seq<Token> {
    [KeyToken(m.key)] + Tokens(m.value)
  }

  function MembersTokens(members: Members): seq<Token> {
    match members
    case LastMember(m) => MemberTokens(m)
    case MoreMembers(m, rest) => MemberTokens(m) + MembersTokens(rest)
  }
}
