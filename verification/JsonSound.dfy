// Whatever the tokenizer has consumed so far is the beginning of a JSON text.
//
// A `Place` is a partly built tree: the containers that are still open and what has been
// read inside each. Every configuration of a run has such a place whose text is exactly the
// consumed input; accepted inputs are therefore JSON texts, and every consumed prefix can be
// completed to one.
module JsonSound {
  import opened Bytes
  import opened JsonError
  import opened JsonGrammar
  import opened JsonScan
  import opened JsonMachine

  // A position where a value is about to start, after `pre` (or `gap`) whitespace.
  datatype Hole =
    | Top(pre: seq<Byte>)
    | InArray(outer: Hole, items: seq<Item>, pre: seq<Byte>)
    | InObject(outer: Hole, members: seq<Member>, pre: seq<Byte>, key: Body, mid: seq<Byte>, gap: seq<Byte>)

  // The positions between two passes of the loop.
  datatype Place =
    | AtStart
    | AtEnd(pre: seq<Byte>, v: Value)
    | BeforeItem(outer: Hole, items: seq<Item>)
    | AfterItem(outer: Hole, items: seq<Item>, pre: seq<Byte>, v: Value)
    | BeforeKey(outer: Hole, members: seq<Member>)
    | AfterKey(outer: Hole, members: seq<Member>, pre: seq<Byte>, key: Body, mid: seq<Byte>)
    | AfterMember(outer: Hole, members: seq<Member>, pre: seq<Byte>, key: Body, mid: seq<Byte>, gap: seq<Byte>,
        v: Value)

  // The finished items, each with its comma.
  function CommaItems(items: seq<Item>): seq<Byte> {
    if items == [] then [] else ItemText(items[0]) + [COMMA] + CommaItems(items[1..])
  }

  function CommaMembers(members: seq<Member>): seq<Byte> {
    if members == [] then [] else MemberText(members[0]) + [COMMA] + CommaMembers(members[1..])
  }

  function SeqTokens(items: seq<Item>): seq<Token> {
    if items == [] then [] else Tokens(items[0].value) + SeqTokens(items[1..])
  }

  function SeqMemberTokens(members: seq<Member>): seq<Token> {
    if members == [] then [] else MemberTokens(members[0]) + SeqMemberTokens(members[1..])
  }

  function KeyText(pre: seq<Byte>, key: Body, mid: seq<Byte>): seq<Byte> {
    pre + StringText(key) + mid + [COLON]
  }

  function HoleText(h: Hole): seq<Byte> {
    match h
    case Top(pre) => pre
    case InArray(o, items, pre) => HoleText(o) + [LBRACKET] + CommaItems(items) + pre
    case InObject(o, members, pre, key, mid, gap) =>
      HoleText(o) + [LBRACE] + CommaMembers(members) + KeyText(pre, key, mid) + gap
  }

  function HoleTokens(h: Hole): seq<Token> {
    match h
    case Top(_) => []
    case InArray(o, items, _) => HoleTokens(o) + [ArrayStart] + SeqTokens(items)
    case InObject(o, members, _, key, _, _) =>
      HoleTokens(o) + [ObjectStart] + SeqMemberTokens(members) + [KeyToken(key)]
  }

  function HoleStack(h: Hole): seq<bool> {
    match h
    case Top(_) => []
    case InArray(o, _, _) => HoleStack(o) + [true]
    case InObject(o, _, _, _, _, _) => HoleStack(o) + [false]
  }

  // A value that fits under `depth` open containers.
  predicate Fits(v: Value, depth: nat) {
    ValidValue(v) && depth + Depth(v) <= MAX_DEPTH
  }

  predicate ItemsFit(items: seq<Item>, depth: nat) {
    forall i :: 0 <= i < |items| ==> ValidItem(items[i]) && Fits(items[i].value, depth)
  }

  predicate MembersFit(members: seq<Member>, depth: nat) {
    forall i :: 0 <= i < |members| ==> ValidMember(members[i]) && Fits(members[i].value, depth)
  }

  predicate ValidHole(h: Hole) {
    && |HoleStack(h)| <= MAX_DEPTH
    && match h
       case Top(pre) => AllWs(pre)
       case InArray(o, items, pre) => ValidHole(o) && ItemsFit(items, |HoleStack(h)|) && AllWs(pre)
       case InObject(o, members, pre, key, mid, gap) =>
         ValidHole(o) && MembersFit(members, |HoleStack(h)|) && AllWs(pre) && ValidBody(key) && AllWs(mid) && AllWs(gap)
  }

  // The hole at which the value before a place has been put.
  function Fill(h: Hole, v: Value): Place {
    match h
    case Top(pre) => AtEnd(pre, v)
    case InArray(o, items, pre) => AfterItem(o, items, pre, v)
    case InObject(o, members, pre, key, mid, gap) => AfterMember(o, members, pre, key, mid, gap, v)
  }

  function PlaceText(p: Place): seq<Byte> {
    match p
    case AtStart => []
    case AtEnd(pre, v) => pre + Text(v)
    case BeforeItem(o, items) => HoleText(o) + [LBRACKET] + CommaItems(items)
    case AfterItem(o, items, pre, v) => HoleText(InArray(o, items, pre)) + Text(v)
    case BeforeKey(o, members) => HoleText(o) + [LBRACE] + CommaMembers(members)
    case AfterKey(o, members, pre, key, mid) => HoleText(InObject(o, members, pre, key, mid, []))
    case AfterMember(o, members, pre, key, mid, gap, v) => HoleText(InObject(o, members, pre, key, mid, gap)) + Text(v)
  }

  function PlaceTokens(p: Place): seq<Token> {
    match p
    case AtStart => []
    case AtEnd(pre, v) => Tokens(v)
    case BeforeItem(o, items) => HoleTokens(o) + [ArrayStart] + SeqTokens(items)
    case AfterItem(o, items, pre, v) => HoleTokens(InArray(o, items, pre)) + Tokens(v)
    case BeforeKey(o, members) => HoleTokens(o) + [ObjectStart] + SeqMemberTokens(members)
    case AfterKey(o, members, pre, key, mid) => HoleTokens(InObject(o, members, pre, key, mid, []))
    case AfterMember(o, members, pre, key, mid, gap, v) =>
      HoleTokens(InObject(o, members, pre, key, mid, gap)) + Tokens(v)
  }

  function PlaceStack(p: Place): seq<bool> {
    match p
    case AtStart => []
    case AtEnd(_, _) => []
    case BeforeItem(o, _) => HoleStack(o) + [true]
    case AfterItem(o, _, _, _) => HoleStack(o) + [true]
    case BeforeKey(o, _) => HoleStack(o) + [false]
    case AfterKey(o, _, _, _, _) => HoleStack(o) + [false]
    case AfterMember(o, _, _, _, _, _, _) => HoleStack(o) + [false]
  }

  function PlaceState(p: Place): State {
    match p
    case AtStart => Start
    case AtEnd(_, _) => Done
    case BeforeItem(_, items) => if items == [] then ArrayFirstValue else ArrayNextValue
    case AfterItem(_, _, _, _) => ArrayComma
    case BeforeKey(_, members) => if members == [] then ObjectFirstKey else ObjectNextKey
    case AfterKey(_, _, _, _, _) => ObjectValue
    case AfterMember(_, _, _, _, _, _, _) => ObjectComma
  }

  predicate ValidPlace(p: Place) {
    match p
    case AtStart => true
    case AtEnd(pre, v) => AllWs(pre) && Fits(v, 0)
    case BeforeItem(o, items) => ValidHole(InArray(o, items, []))
    case AfterItem(o, items, pre, v) => ValidHole(InArray(o, items, pre)) && Fits(v, |HoleStack(o)| + 1)
    case BeforeKey(o, members) => ValidHole(InObject(o, members, [], [], [], []))
    case AfterKey(o, members, pre, key, mid) => ValidHole(InObject(o, members, pre, key, mid, []))
    case AfterMember(o, members, pre, key, mid, gap, v) =>
      ValidHole(InObject(o, members, pre, key, mid, gap)) && Fits(v, |HoleStack(o)| + 1)
  }

  // The value that ends at a place.
  function LastValue(p: Place): Option<Value> {
    match p
    case AtEnd(_, v) => Some(v)
    case AfterItem(_, _, _, v) => Some(v)
    case AfterMember(_, _, _, _, _, _, v) => Some(v)
    case _ => None
  }

  // A number that ends at the place, just before `s[k]`, does not go on there.
  predicate Ended(s: seq<Byte>, k: nat, p: Place) {
    k < |s| && LastValue(p).Some? && LastValue(p).value.Num? ==> !GoesOn(LastValue(p).value.number, s[k])
  }

  // The machine `c`, with `seen` reported, has consumed exactly the place `p`.
  ghost predicate At(s: seq<Byte>, c: Config, seen: seq<Token>, p: Place) {
    && Consistent(s, c) && ValidPlace(p)
    && PlaceText(p) == s[..c.offset] && PlaceTokens(p) == seen
    && PlaceState(p) == c.state && PlaceStack(p) == c.stack && Ended(s, c.offset, p)
  }

  lemma {:induction false} FillFacts(h: Hole, v: Value)
    requires ValidHole(h) && Fits(v, |HoleStack(h)|)
    ensures ValidPlace(Fill(h, v))
    ensures PlaceText(Fill(h, v)) == HoleText(h) + Text(v)
    ensures PlaceTokens(Fill(h, v)) == HoleTokens(h) + Tokens(v)
    ensures PlaceStack(Fill(h, v)) == HoleStack(h) && PlaceState(Fill(h, v)) == AfterValue(HoleStack(h))
    ensures LastValue(Fill(h, v)) == Some(v)
  {
    hide Text, Tokens, CommaItems, CommaMembers, SeqTokens, SeqMemberTokens, ItemsFit, MembersFit, Fits, KeyText;
    match h {
      case Top(pre) => assert [] + Tokens(v) == Tokens(v);
      case InArray(o, items, pre) =>
      case InObject(o, members, pre, key, mid, gap) =>
    }
  }

  // The trees that a list of finished items and a last one make.
  function MakeItems(items: seq<Item>, last: Item): Items {
    if items == [] then LastItem(last) else MoreItems(items[0], MakeItems(items[1..], last))
  }

  function MakeMembers(members: seq<Member>, last: Member): Members {
    if members == [] then LastMember(last) else MoreMembers(members[0], MakeMembers(members[1..], last))
  }

  lemma {:induction false} MakeItemsFacts(items: seq<Item>, last: Item, depth: nat)
    requires ItemsFit(items, depth) && ValidItem(last) && Fits(last.value, depth)
    ensures var t := MakeItems(items, last);
      && ValidItems(t) && depth + ItemsDepth(t) <= MAX_DEPTH
      && ItemsText(t) == CommaItems(items) + ItemText(last)
      && ItemsTokens(t) == SeqTokens(items) + Tokens(last.value)
  {
    hide ItemText, Tokens, Depth, ValidItem, ValidValue;
    if items == [] {
      assert [] + ItemText(last) == ItemText(last);
    } else {
      MakeItemsFacts(items[1..], last, depth);
      assert ItemText(items[0]) + [COMMA] + (CommaItems(items[1..]) + ItemText(last))
          == CommaItems(items) + ItemText(last);
      assert Tokens(items[0].value) + (SeqTokens(items[1..]) + Tokens(last.value))
          == SeqTokens(items) + Tokens(last.value);
    }
  }

  lemma {:induction false} MakeMembersFacts(members: seq<Member>, last: Member, depth: nat)
    requires MembersFit(members, depth) && ValidMember(last) && Fits(last.value, depth)
    ensures var t := MakeMembers(members, last);
      && ValidMembers(t) && depth + MembersDepth(t) <= MAX_DEPTH
      && MembersText(t) == CommaMembers(members) + MemberText(last)
      && MembersTokens(t) == SeqMemberTokens(members) + MemberTokens(last)
  {
    hide MemberText, MemberTokens, Depth, ValidMember, ValidValue;
    if members == [] {
      assert [] + MemberText(last) == MemberText(last);
    } else {
      MakeMembersFacts(members[1..], last, depth);
      assert MemberText(members[0]) + [COMMA] + (CommaMembers(members[1..]) + MemberText(last))
          == CommaMembers(members) + MemberText(last);
      assert MemberTokens(members[0]) + (SeqMemberTokens(members[1..]) + MemberTokens(last))
          == SeqMemberTokens(members) + MemberTokens(last);
    }
  }

  lemma {:induction false} CommaItemsAppend(items: seq<Item>, i: Item)
    ensures CommaItems(items + [i]) == CommaItems(items) + ItemText(i) + [COMMA]
    ensures SeqTokens(items + [i]) == SeqTokens(items) + Tokens(i.value)
  {
    hide ItemText, Tokens;
    if items == [] {
      assert items + [i] == [i];
    } else {
      assert (items + [i])[1..] == items[1..] + [i];
      CommaItemsAppend(items[1..], i);
      assert CommaItems(items + [i]) == ItemText(items[0]) + [COMMA] + CommaItems(items[1..] + [i]);
    }
  }

  lemma {:induction false} CommaMembersAppend(members: seq<Member>, m: Member)
    ensures CommaMembers(members + [m]) == CommaMembers(members) + MemberText(m) + [COMMA]
    ensures SeqMemberTokens(members + [m]) == SeqMemberTokens(members) + MemberTokens(m)
  {
    hide MemberText, MemberTokens;
    if members == [] {
      assert members + [m] == [m];
    } else {
      assert (members + [m])[1..] == members[1..] + [m];
      CommaMembersAppend(members[1..], m);
      assert CommaMembers(members + [m]) == MemberText(members[0]) + [COMMA] + CommaMembers(members[1..] + [m]);
    }
  }

  // The value that closing the innermost container after whitespace `ws` completes.
  function ClosedValue(p: Place, ws: seq<Byte>): Value
    requires p.BeforeItem? || p.AfterItem? || p.BeforeKey? || p.AfterMember?
  {
    match p
    case BeforeItem(o, items) => EmptyArray(ws)
    case AfterItem(o, items, pre, v) => Array(MakeItems(items, Item(pre, v, ws)))
    case BeforeKey(o, members) => EmptyObject(ws)
    case AfterMember(o, members, pre, key, mid, gap, v) =>
      Object(MakeMembers(members, Member(pre, key, mid, gap, v, ws)))
  }

  predicate Closable(p: Place) {
    match p
    case BeforeItem(_, items) => items == []
    case BeforeKey(_, members) => members == []
    case AfterItem(_, _, _, _) => true
    case AfterMember(_, _, _, _, _, _, _) => true
    case _ => false
  }

  predicate OpenArray(p: Place) {
    p.BeforeItem? || p.AfterItem?
  }

  lemma {:induction false} ClosedFacts(p: Place, ws: seq<Byte>)
    requires ValidPlace(p) && Closable(p) && AllWs(ws)
    ensures var v := ClosedValue(p, ws);
      && !v.Num? && ValidHole(p.outer) && Fits(v, |HoleStack(p.outer)|)
      && PlaceStack(p) == HoleStack(p.outer) + [OpenArray(p)]
      && HoleText(p.outer) + Text(v) == PlaceText(p) + ws + [if OpenArray(p) then RBRACKET else RBRACE]
      && HoleTokens(p.outer) + Tokens(v) == PlaceTokens(p) + [if OpenArray(p) then ArrayEnd else ObjectEnd]
  {
    hide HoleText, HoleTokens, PlaceText, PlaceTokens, Text, Tokens, Fits, ItemsFit, MembersFit, MakeItems, MakeMembers;
    match p {
      case BeforeItem(o, items) => ClosedEmpty(p, ws);
      case AfterItem(o, items, pre, v) => ClosedItems(o, items, pre, v, ws);
      case BeforeKey(o, members) => ClosedEmpty(p, ws);
      case AfterMember(o, members, pre, key, mid, gap, v) => ClosedMembers(o, members, pre, key, mid, gap, v, ws);
    }
  }

  lemma {:induction false} ClosedEmpty(p: Place, ws: seq<Byte>)
    requires ValidPlace(p) && Closable(p) && AllWs(ws) && (p.BeforeItem? || p.BeforeKey?)
    ensures var v := ClosedValue(p, ws);
      && Fits(v, |HoleStack(p.outer)|)
      && HoleText(p.outer) + Text(v) == PlaceText(p) + ws + [if OpenArray(p) then RBRACKET else RBRACE]
      && HoleTokens(p.outer) + Tokens(v) == PlaceTokens(p) + [if OpenArray(p) then ArrayEnd else ObjectEnd]
  {
    hide HoleText, HoleTokens;
    if p.BeforeItem? {
      RegroupEmpty(HoleText(p.outer), [LBRACKET], ws, [RBRACKET]);
      RegroupEmpty(HoleTokens(p.outer), [ArrayStart], [], [ArrayEnd]);
      assert [ArrayStart] + [ArrayEnd] == [ArrayStart, ArrayEnd];
    } else {
      RegroupEmpty(HoleText(p.outer), [LBRACE], ws, [RBRACE]);
      RegroupEmpty(HoleTokens(p.outer), [ObjectStart], [], [ObjectEnd]);
      assert [ObjectStart] + [ObjectEnd] == [ObjectStart, ObjectEnd];
    }
  }

  // Regrouping of a concatenation.
  lemma {:induction false} Regroup<T>(a: seq<T>, l: seq<T>, b: seq<T>, c: seq<T>, d: seq<T>, w: seq<T>, r: seq<T>)
    ensures a + (l + (b + (c + d + w)) + r) == a + l + b + c + d + w + r
  {
  }

  lemma {:induction false} RegroupShort<T>(a: seq<T>, l: seq<T>, b: seq<T>, c: seq<T>, r: seq<T>)
    ensures a + (l + (b + c) + r) == a + l + b + c + r
  {
  }

  // An empty container inside `a`.
  lemma {:induction false} RegroupEmpty<T>(a: seq<T>, l: seq<T>, w: seq<T>, r: seq<T>)
    ensures a + (l + w + r) == a + l + [] + w + r
    ensures a + (l + r) == a + l + [] + r
  {
  }

  lemma {:induction false} ClosedItems(o: Hole, items: seq<Item>, pre: seq<Byte>, v: Value, ws: seq<Byte>)
    requires ValidPlace(AfterItem(o, items, pre, v)) && AllWs(ws)
    ensures var a := Array(MakeItems(items, Item(pre, v, ws)));
      && Fits(a, |HoleStack(o)|)
      && HoleText(o) + Text(a) == PlaceText(AfterItem(o, items, pre, v)) + ws + [RBRACKET]
      && HoleTokens(o) + Tokens(a) == PlaceTokens(AfterItem(o, items, pre, v)) + [ArrayEnd]
  {
    hide ItemsFit, CommaItems, SeqTokens, ValidItems, ItemsText, ItemsTokens, MakeItems;
    var last := Item(pre, v, ws);
    MakeItemsFacts(items, last, |HoleStack(o)| + 1);
    Regroup(HoleText(o), [LBRACKET], CommaItems(items), pre, Text(v), ws, [RBRACKET]);
    RegroupShort(HoleTokens(o), [ArrayStart], SeqTokens(items), Tokens(v), [ArrayEnd]);
  }

  lemma {:induction false} ClosedMembers(o: Hole, members: seq<Member>, pre: seq<Byte>, key: Body, mid: seq<Byte>,
      gap: seq<Byte>, v: Value, ws: seq<Byte>)
    requires ValidPlace(AfterMember(o, members, pre, key, mid, gap, v)) && AllWs(ws)
    ensures var a := Object(MakeMembers(members, Member(pre, key, mid, gap, v, ws)));
      && Fits(a, |HoleStack(o)|)
      && HoleText(o) + Text(a) == PlaceText(AfterMember(o, members, pre, key, mid, gap, v)) + ws + [RBRACE]
      && HoleTokens(o) + Tokens(a) == PlaceTokens(AfterMember(o, members, pre, key, mid, gap, v)) + [ObjectEnd]
  {
    hide MembersFit, CommaMembers, SeqMemberTokens, ValidMembers, MembersText, MembersTokens, MakeMembers,
        MemberText, KeyText;
    var last := Member(pre, key, mid, gap, v, ws);
    MakeMembersFacts(members, last, |HoleStack(o)| + 1);
    MemberTextParts(last);
    var name := KeyText(pre, key, mid) + gap;
    Regroup(HoleText(o), [LBRACE], CommaMembers(members), name, Text(v), ws, [RBRACE]);
    assert HoleText(o) + [LBRACE] + CommaMembers(members) + name
        == HoleText(o) + [LBRACE] + CommaMembers(members) + KeyText(pre, key, mid) + gap;
    RegroupShort(HoleTokens(o), [ObjectStart], SeqMemberTokens(members), [KeyToken(key)] + Tokens(v), [ObjectEnd]);
    assert HoleTokens(o) + [ObjectStart] + SeqMemberTokens(members) + ([KeyToken(key)] + Tokens(v))
        == HoleTokens(o) + [ObjectStart] + SeqMemberTokens(members) + [KeyToken(key)] + Tokens(v);
  }

  lemma {:induction false} MemberTextParts(m: Member)
    ensures MemberText(m) == KeyText(m.pre, m.key, m.mid) + m.gap + Text(m.value) + m.post
  {
  }

  // Places where a value may start, and the hole there after whitespace `ws`.
  predicate BeforeValue(p: Place) {
    p.AtStart? || p.BeforeItem? || p.AfterKey?
  }

  function Enter(p: Place, ws: seq<Byte>): Hole
    requires BeforeValue(p)
  {
    match p
    case AtStart => Top(ws)
    case BeforeItem(o, items) => InArray(o, items, ws)
    case AfterKey(o, members, pre, key, mid) => InObject(o, members, pre, key, mid, ws)
  }

  lemma {:induction false} EnterFacts(p: Place, ws: seq<Byte>)
    requires ValidPlace(p) && BeforeValue(p) && AllWs(ws)
    ensures var h := Enter(p, ws);
      && ValidHole(h) && HoleText(h) == PlaceText(p) + ws
      && HoleTokens(h) == PlaceTokens(p) && HoleStack(h) == PlaceStack(p)
  {
    hide CommaItems, CommaMembers, SeqTokens, SeqMemberTokens, ItemsFit, MembersFit, KeyText;
    if p.AfterKey? {
      var a := HoleText(p.outer) + [LBRACE] + CommaMembers(p.members) + KeyText(p.pre, p.key, p.mid);
      assert a + [] == a;
    }
  }

  // The machine `c` stands before a value at hole `h`.
  ghost predicate AtHole(s: seq<Byte>, c: Config, seen: seq<Token>, h: Hole) {
    && Consistent(s, c) && ValidHole(h)
    && HoleText(h) == s[..c.offset] && HoleTokens(h) == seen && HoleStack(h) == c.stack
  }

  lemma {:induction false} Longer(s: seq<Byte>, a: nat, b: nat)
    requires a <= b <= |s|
    ensures s[..b] == s[..a] + s[a..b]
  {
  }

  // A value that is scanned in one pass is a scalar of the grammar.
  lemma {:induction false} ScalarSound(s: seq<Byte>, c: Config) returns (v: Value)
    requires Consistent(s, c) && c.offset < |s| && s[c.offset] != LBRACE && s[c.offset] != LBRACKET
    requires ScanValue(s, c).Advanced?
    ensures var r := ScanValue(s, c);
      && r.next == Config(r.next.offset, AfterValue(c.stack), c.stack) && c.offset < r.next.offset <= |s|
      && ValidValue(v) && Depth(v) == 0 && Text(v) == s[c.offset..r.next.offset]
      && r.token.Some? && Tokens(v) == [r.token.value]
      && (v.Num? && r.next.offset < |s| ==> !GoesOn(v.number, s[r.next.offset]))
  {
    hide ScanBody, ScanNumber, NumberText, BodyText, ValidNumber, ValidBody, Escaped;
    var b := s[c.offset];
    if b == QUOTE {
      var us := ScanBodySound(s, c.offset + 1, false);
      v := Str(us);
      var end := ScanBody(s, c.offset + 1, false).value.0;
      QuotedSlice(s, c.offset, end);
    } else if b == 0x74 {
      v := Bool(true);
    } else if b == 0x66 {
      v := Bool(false);
    } else if b == 0x6E {
      v := Null;
    } else {
      var n := ScanNumberSound(s, c.offset);
      v := Num(n);
    }
  }

  lemma {:induction false} QuotedSlice(s: seq<Byte>, p: nat, end: nat)
    requires p < end < |s| && s[p] == QUOTE && s[end] == QUOTE
    ensures [QUOTE] + s[p + 1..end] + [QUOTE] == s[p..end + 1]
  {
  }

  // A pass over a value moves from the hole to a place.
  lemma {:induction false} ValuePlace(s: seq<Byte>, c: Config, seen: seq<Token>, h: Hole) returns (p: Place)
    requires AtHole(s, c, seen, h) && c.offset < |s| && ScanValue(s, c).Advanced?
    ensures var r := ScanValue(s, c);
      r.token.Some? && At(s, r.next, seen + [r.token.value], p)
  {
    hide ScanValue, At, AtHole;
    var b := s[c.offset];
    if b == LBRACE || b == LBRACKET {
      p := OpenPlace(s, c, seen, h);
    } else {
      p := ScalarPlace(s, c, seen, h);
    }
  }

  lemma {:induction false} OpenPlace(s: seq<Byte>, c: Config, seen: seq<Token>, h: Hole) returns (p: Place)
    requires AtHole(s, c, seen, h) && c.offset < |s| && ScanValue(s, c).Advanced?
    requires s[c.offset] == LBRACE || s[c.offset] == LBRACKET
    ensures var r := ScanValue(s, c);
      r.token.Some? && At(s, r.next, seen + [r.token.value], p)
  {
    hide HoleText, HoleTokens, PlaceText, PlaceTokens, ValidPlace, ValidHole, ScanString, ScanLiteral, ScanNumber;
    var b := s[c.offset];
    Longer(s, c.offset, c.offset + 1);
    assert s[c.offset..c.offset + 1] == [b];
    p := if b == LBRACKET then BeforeItem(h, []) else BeforeKey(h, []);
    OpenedFacts(h);
  }

  lemma {:induction false} ScalarPlace(s: seq<Byte>, c: Config, seen: seq<Token>, h: Hole) returns (p: Place)
    requires AtHole(s, c, seen, h) && c.offset < |s| && ScanValue(s, c).Advanced?
    requires s[c.offset] != LBRACE && s[c.offset] != LBRACKET
    ensures var r := ScanValue(s, c);
      r.token.Some? && At(s, r.next, seen + [r.token.value], p)
  {
    hide ScanValue, HoleText, HoleTokens, HoleStack, PlaceText, PlaceTokens, PlaceStack, PlaceState, ValidPlace,
      ValidHole, Text, Tokens, ValidValue, Depth, Fill;
    var v := ScalarSound(s, c);
    p := Fill(h, v);
    FillFacts(h, v);
    Longer(s, c.offset, ScanValue(s, c).next.offset);
  }

  lemma {:induction false} OpenedFacts(h: Hole)
    requires ValidHole(h) && |HoleStack(h)| < MAX_DEPTH
    ensures ValidPlace(BeforeItem(h, [])) && PlaceText(BeforeItem(h, [])) == HoleText(h) + [LBRACKET]
    ensures PlaceTokens(BeforeItem(h, [])) == HoleTokens(h) + [ArrayStart]
    ensures ValidPlace(BeforeKey(h, [])) && PlaceText(BeforeKey(h, [])) == HoleText(h) + [LBRACE]
    ensures PlaceTokens(BeforeKey(h, [])) == HoleTokens(h) + [ObjectStart]
  {
    hide HoleText, HoleTokens;
    assert HoleText(h) + [LBRACKET] + [] == HoleText(h) + [LBRACKET];
    assert HoleText(h) + [LBRACE] + [] == HoleText(h) + [LBRACE];
    assert HoleTokens(h) + [ArrayStart] + [] == HoleTokens(h) + [ArrayStart];
    assert HoleTokens(h) + [ObjectStart] + [] == HoleTokens(h) + [ObjectStart];
  }

  // A pass over a member name moves behind its colon.
  lemma {:induction false} KeyPlace(s: seq<Byte>, c: Config, ws: nat, seen: seq<Token>, p: Place) returns (next: Place)
    requires At(s, c, seen, p) && p.BeforeKey? && c.offset <= ws < |s| && AllWs(s[c.offset..ws])
    requires Consistent(s, c.(offset := ws)) && ScanKey(s, c.(offset := ws)).Advanced?
    ensures var r := ScanKey(s, c.(offset := ws));
      r.token.Some? && At(s, r.next, seen + [r.token.value], next)
  {
    hide HoleText, HoleTokens, HoleStack, PlaceText, PlaceTokens, ValidPlace, KeyText, CommaMembers,
        SeqMemberTokens, MembersFit, ScanBody, BodyText, Escaped, ValidBody, SkipWs;
    var us := ScanBodySound(s, ws + 1, false);
    var end := ScanBody(s, ws + 1, false).value.0;
    var q := SkipWs(s, end + 1);
    SkipWsRange(s, end + 1);
    var pre, mid := s[c.offset..ws], s[end + 1..q];
    next := AfterKey(p.outer, p.members, pre, us, mid);
    QuotedSlice(s, ws, end);
    KeySlices(s, c.offset, ws, end, q, us);
    AfterKeyFacts(p, pre, us, mid);
    Longer(s, c.offset, q + 1);
  }

  lemma {:induction false} KeySlices(s: seq<Byte>, a: nat, ws: nat, end: nat, q: nat, us: Body)
    requires a <= ws < end < q + 1 <= |s| && end + 1 <= q < |s|
    requires StringText(us) == s[ws..end + 1] && s[q] == COLON
    ensures KeyText(s[a..ws], us, s[end + 1..q]) == s[a..q + 1]
  {
    hide StringText;
  }

  lemma {:induction false} AfterKeyFacts(p: Place, pre: seq<Byte>, key: Body, mid: seq<Byte>)
    requires ValidPlace(p) && p.BeforeKey? && AllWs(pre) && ValidBody(key) && AllWs(mid)
    ensures var n := AfterKey(p.outer, p.members, pre, key, mid);
      && ValidPlace(n) && PlaceText(n) == PlaceText(p) + KeyText(pre, key, mid)
      && PlaceTokens(n) == PlaceTokens(p) + [KeyToken(key)]
      && PlaceStack(n) == PlaceStack(p) && PlaceState(n) == ObjectValue
  {
    hide CommaMembers, SeqMemberTokens, MembersFit, KeyText, KeyToken, ValidBody;
    var a := HoleText(p.outer) + [LBRACE] + CommaMembers(p.members) + KeyText(pre, key, mid);
    assert a + [] == a;
  }

  // A pass over a closing bracket fills the hole outside the container.
  lemma {:induction false} ClosePlace(s: seq<Byte>, c: Config, q: nat, seen: seq<Token>, p: Place) returns (next: Place)
    requires At(s, c, seen, p) && Closable(p) && c.offset <= q < |s| && AllWs(s[c.offset..q])
    requires s[q] == (if OpenArray(p) then RBRACKET else RBRACE)
    ensures var d := Config(q + 1, AfterValue(Pop(c.stack)), Pop(c.stack));
      At(s, d, seen + [if OpenArray(p) then ArrayEnd else ObjectEnd], next)
  {
    hide HoleText, HoleTokens, HoleStack, PlaceText, PlaceTokens, PlaceStack, PlaceState, ValidPlace, ValidHole,
      Text, Tokens, ClosedValue, Fill, Fits;
    var ws := s[c.offset..q];
    var v := ClosedValue(p, ws);
    ClosedFacts(p, ws);
    FillFacts(p.outer, v);
    next := Fill(p.outer, v);
    assert Pop(c.stack) == HoleStack(p.outer);
    Longer(s, c.offset, q + 1);
    assert s[c.offset..q + 1] == ws + [s[q]];
  }

  // A pass over a comma puts the finished item or member into the list.
  lemma {:induction false} CommaPlace(s: seq<Byte>, c: Config, q: nat, seen: seq<Token>, p: Place) returns (next: Place)
    requires At(s, c, seen, p) && (p.AfterItem? || p.AfterMember?)
    requires c.offset <= q < |s| && AllWs(s[c.offset..q]) && s[q] == COMMA
    ensures At(s, Config(q + 1, if p.AfterItem? then ArrayNextValue else ObjectNextKey, c.stack), seen, next)
  {
    hide HoleText, HoleTokens, PlaceText, PlaceTokens, ValidPlace, ValidHole;
    var ws := s[c.offset..q];
    if p.AfterItem? {
      next := BeforeItem(p.outer, p.items + [Item(p.pre, p.v, ws)]);
    } else {
      next := BeforeKey(p.outer, p.members + [Member(p.pre, p.key, p.mid, p.gap, p.v, ws)]);
    }
    CommaFacts(p, ws);
    Longer(s, c.offset, q + 1);
    assert s[c.offset..q + 1] == ws + [s[q]];
  }

  lemma {:induction false} CommaFacts(p: Place, ws: seq<Byte>)
    requires ValidPlace(p) && AllWs(ws)
    ensures p.AfterItem? ==>
      var n := BeforeItem(p.outer, p.items + [Item(p.pre, p.v, ws)]);
      ValidPlace(n) && PlaceText(n) == PlaceText(p) + ws + [COMMA] && PlaceTokens(n) == PlaceTokens(p)
    ensures p.AfterMember? ==>
      var n := BeforeKey(p.outer, p.members + [Member(p.pre, p.key, p.mid, p.gap, p.v, ws)]);
      ValidPlace(n) && PlaceText(n) == PlaceText(p) + ws + [COMMA] && PlaceTokens(n) == PlaceTokens(p)
  {
    if p.AfterItem? {
      CommaItemFacts(p.outer, p.items, Item(p.pre, p.v, ws));
    } else if p.AfterMember? {
      CommaMemberFacts(p.outer, p.members, Member(p.pre, p.key, p.mid, p.gap, p.v, ws));
    }
  }

  lemma {:induction false} CommaItemFacts(o: Hole, items: seq<Item>, i: Item)
    requires ValidPlace(AfterItem(o, items, i.pre, i.value)) && AllWs(i.post)
    ensures var n := BeforeItem(o, items + [i]);
      var p := AfterItem(o, items, i.pre, i.value);
      ValidPlace(n) && PlaceText(n) == PlaceText(p) + i.post + [COMMA] && PlaceTokens(n) == PlaceTokens(p)
  {
    hide CommaItems, SeqTokens, Text, Tokens, ValidValue, Depth;
    CommaItemsAppend(items, i);
    RegroupComma(HoleText(o) + [LBRACKET], CommaItems(items), i.pre, Text(i.value), i.post, [COMMA]);
  }

  lemma {:induction false} RegroupComma<T>(a: seq<T>, b: seq<T>, c: seq<T>, d: seq<T>, e: seq<T>, r: seq<T>)
    ensures a + (b + (c + d + e) + r) == a + b + c + d + e + r
  {
  }

  lemma {:induction false} CommaMemberFacts(o: Hole, members: seq<Member>, m: Member)
    requires ValidPlace(AfterMember(o, members, m.pre, m.key, m.mid, m.gap, m.value)) && AllWs(m.post)
    ensures var n := BeforeKey(o, members + [m]);
      var p := AfterMember(o, members, m.pre, m.key, m.mid, m.gap, m.value);
      ValidPlace(n) && PlaceText(n) == PlaceText(p) + m.post + [COMMA] && PlaceTokens(n) == PlaceTokens(p)
  {
    hide CommaMembers, SeqMemberTokens, Text, Tokens, ValidValue, Depth, KeyText, MemberText;
    CommaMembersAppend(members, m);
    MemberTextParts(m);
    var k := KeyText(m.pre, m.key, m.mid);
    RegroupComma(HoleText(o) + [LBRACE], CommaMembers(members), k + m.gap, Text(m.value), m.post, [COMMA]);
    assert HoleText(o) + [LBRACE] + CommaMembers(members) + (k + m.gap)
        == HoleText(o) + [LBRACE] + CommaMembers(members) + k + m.gap;
  }

  // Every pass that moves on moves from place to place.
  lemma {:induction false} PassPlace(s: seq<Byte>, c: Config, seen: seq<Token>, p: Place) returns (next: Place)
    requires At(s, c, seen, p) && Pass(s, c).Advanced?
    ensures var r := Pass(s, c);
      At(s, r.next, seen + (if r.token.Some? then [r.token.value] else []), next)
  {
    hide HoleText, HoleTokens, HoleStack, PlaceText, PlaceTokens, PlaceStack, ValidPlace, ValidHole, ScanValue,
        ScanKey, SkipWs;
    var q := SkipWs(s, c.offset);
    var d := c.(offset := q);
    SkipWsRange(s, c.offset);
    var ws := s[c.offset..q];
    if BeforeValue(p) && !(p.BeforeItem? && p.items == [] && s[q] == RBRACKET) {
      EnterFacts(p, ws);
      Longer(s, c.offset, q);
      next := ValuePlace(s, d, seen, Enter(p, ws));
    } else if p.BeforeKey? && !(p.members == [] && s[q] == RBRACE) {
      next := KeyPlace(s, c, q, seen, p);
    } else if (p.AfterItem? || p.AfterMember?) && s[q] == COMMA {
      next := CommaPlace(s, c, q, seen, p);
      assert seen + [] == seen;
    } else {
      next := ClosePlace(s, c, q, seen, p);
    }
  }
}
