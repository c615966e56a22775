// The resolver's request encoder and its reply framing.

module VarlinkEncoding {
  import opened Bytes
  import opened Utf8
  import opened JsonGrammar
  import JsonMachine
  import opened EscapeSpec
  import opened EscapeDecode
  import JsonComplete

  function Ascii(s: string): (b: seq<Byte>)
    requires forall i :: 0 <= i < |s| ==> s[i] < 128 as char
    ensures |b| == |s| && forall i :: 0 <= i < |s| ==> b[i] == s[i] as int
  {
    seq(|s|, i requires 0 <= i < |s| => s[i] as int)
  }

  const PREFIX := Ascii("{\"method\":\"")
  const METHOD := Ascii("io.systemd.Resolve.ResolveHostname")
  const PARAMETERS := Ascii("\",\"") + Ascii("parameters") + Ascii("\":{\"") + Ascii("name") + Ascii("\":\"")
  const SUFFIX := Ascii("\"}}")

  function HexDigitOf(value: int): (d: Byte)
    requires 0 <= value < 16
    ensures HexDigit(d) && Nibble(d) == value && d == LOWER[value]
  {
    if value <= 9 then 0x30 + value else 0x61 + (value - 10)
  }

  // The letter of the two-byte escape that the encoder uses for a character, if any.
  function Letter(c: Scalar): Option<Byte> {
    if c == 0x22 || c == 0x5C || c == 0x2F then Some(c)
    else if c == 0x08 then Some(0x62)
    else if c == 0x0C then Some(0x66)
    else if c == 0x0A then Some(0x6E)
    else if c == 0x0D then Some(0x72)
    else if c == 0x09 then Some(0x74)
    else None
  }

  // It is used exactly for the characters that have one.
  lemma LetterIff(c: Scalar)
    ensures Letter(c).Some? <==> exists b :: SimpleEscape(b) && SimpleValue(b) == c
    ensures Letter(c).Some? ==> SimpleEscape(Letter(c).value) && SimpleValue(Letter(c).value) == c
  {
    if Letter(c).Some? {
      assert SimpleEscape(Letter(c).value) && SimpleValue(Letter(c).value) == c;
    }
  }

  function EncodeChar(c: Scalar): seq<Byte> {
    if Letter(c).Some? then [BACKSLASH, Letter(c).value]
    else if c < 0x20 then [BACKSLASH, 0x75, 0x30, 0x30, HexDigitOf(c / 16), HexDigitOf(c % 16)]
    else Encode(c)
  }

  function EncodeContents(cs: seq<Scalar>): seq<Byte> {
    if cs == [] then [] else EncodeChar(cs[0]) + EncodeContents(cs[1..])
  }

  // Characters that the encoder writes as themselves.
  predicate Verbatim(c: Scalar) {
    Letter(c).None? && c >= 0x20
  }

  // Decoding is the inverse of encoding.

  lemma EncodeCharWellFormed(c: Scalar)
    ensures WellFormed(EncodeChar(c)) && |EncodeChar(c)| > 0
  {
    hide CharLen;
    if Verbatim(c) {
      EncodeIsWellFormed(c);
    } else {
      AsciiIsWellFormed(EncodeChar(c));
    }
  }

  lemma {:induction false} EncodeContentsWellFormed(cs: seq<Scalar>)
    ensures WellFormed(EncodeContents(cs))
  {
    hide CharLen, EncodeChar;
    if cs != [] {
      EncodeCharWellFormed(cs[0]);
      EncodeContentsWellFormed(cs[1..]);
      Concat(EncodeChar(cs[0]), EncodeContents(cs[1..]));
    }
  }

  lemma StepOfEncodeChar(c: Scalar, rest: seq<Byte>)
    requires WellFormed(EncodeChar(c) + rest)
    ensures EncodeChar(c) + rest != []
    ensures Step(EncodeChar(c) + rest) == Ok((c, |EncodeChar(c)|))
  {
    hide WellFormed, CharLen, Decode;
    var raw := EncodeChar(c) + rest;
    if Verbatim(c) {
      DecodeEncode(c, rest);
      assert raw[0] == Encode(c)[0];
    } else if Letter(c).None? {
      HexEscapeOf(c, rest);
    }
  }

  lemma HexEscapeOf(c: Scalar, rest: seq<Byte>)
    requires Letter(c).None? && c < 0x20
    ensures var raw := EncodeChar(c) + rest;
      HexAt(raw, 2) && Hex4(raw, 2) == c
  {
    hide HexValue;
    var raw := EncodeChar(c) + rest;
    var d := raw[2..6];
    assert d == [0x30, 0x30, HexDigitOf(c / 16), HexDigitOf(c % 16)];
    HexValue4(d);
  }

  // Decoding what the encoder writes gives the characters back, without an error.
  lemma {:induction false} DecodeOfEncode(cs: seq<Scalar>, offset: nat)
    ensures WellFormed(EncodeContents(cs))
    ensures DecodeAll(EncodeContents(cs), offset) == Decoded(cs, None)
  {
    hide WellFormed, CharLen, Decode, Step, EncodeChar;
    EncodeContentsWellFormed(cs);
    if cs != [] {
      var e, rest := EncodeChar(cs[0]), EncodeContents(cs[1..]);
      StepOfEncodeChar(cs[0], rest);
      assert (e + rest)[|e|..] == rest;
      DecodeOfEncode(cs[1..], offset + |e|);
      assert cs == [cs[0]] + cs[1..];
    }
  }

  // The units that the encoder writes.

  function PlainUnits(b: seq<Byte>): (us: Body)
    ensures |us| == |b| && forall i :: 0 <= i < |b| ==> us[i] == Plain(b[i])
  {
    seq(|b|, i requires 0 <= i < |b| => Plain(b[i]))
  }

  function CharUnits(c: Scalar): Body {
    if Letter(c).Some? then [Simple(Letter(c).value)]
    else if c < 0x20 then [Hex([0x30, 0x30, HexDigitOf(c / 16), HexDigitOf(c % 16)])]
    else PlainUnits(Encode(c))
  }

  function Units(cs: seq<Scalar>): Body {
    if cs == [] then [] else CharUnits(cs[0]) + Units(cs[1..])
  }

  lemma {:induction false} PlainText(b: seq<Byte>)
    ensures BodyText(PlainUnits(b)) == b
  {
    if b != [] {
      assert PlainUnits(b)[1..] == PlainUnits(b[1..]);
      PlainText(b[1..]);
    }
  }

  lemma {:induction false} BodyTextAppend(a: Body, b: Body)
    ensures BodyText(a + b) == BodyText(a) + BodyText(b)
  {
    if a == [] {
      assert a + b == b;
    } else {
      assert (a + b)[1..] == a[1..] + b;
      BodyTextAppend(a[1..], b);
    }
  }

  lemma CharUnitsText(c: Scalar)
    ensures ValidBody(CharUnits(c)) && BodyText(CharUnits(c)) == EncodeChar(c)
    ensures Escaped(CharUnits(c)) <==> !Verbatim(c)
  {
    if Verbatim(c) {
      PlainText(Encode(c));
      assert forall i :: 0 <= i < |CharUnits(c)| ==> CharUnits(c)[i].Plain?;
    } else {
      assert CharUnits(c)[1..] == [];
      assert BodyText(CharUnits(c)) == UnitText(CharUnits(c)[0]);
      assert !CharUnits(c)[0].Plain?;
    }
  }

  // The encoder writes a string body of the grammar. It is escaped unless every character is
  // written as itself, and then it is the value.
  lemma {:induction false} UnitsText(cs: seq<Scalar>)
    ensures ValidBody(Units(cs)) && BodyText(Units(cs)) == EncodeContents(cs)
    ensures Escaped(Units(cs)) <==> exists i :: 0 <= i < |cs| && !Verbatim(cs[i])
    ensures !Escaped(Units(cs)) ==> EncodeContents(cs) == EncodeAll(cs)
  {
    hide CharUnits, EncodeChar, Encode, Verbatim, Escaped, ValidUnit;
    if cs == [] {
      NotEscaped([], []);
    } else {
      var a, b := CharUnits(cs[0]), Units(cs[1..]);
      CharUnitsText(cs[0]);
      UnitsText(cs[1..]);
      BodyTextAppend(a, b);
      NotEscaped(a, b);
      assert forall i :: 0 < i < |cs| ==> cs[i] == cs[1..][i - 1];
      assert forall i :: 0 <= i < |cs[1..]| ==> cs[1..][i] == cs[i + 1];
      if Verbatim(cs[0]) {
        VerbatimChar(cs[0]);
      }
    }
  }

  lemma VerbatimChar(c: Scalar)
    requires Verbatim(c)
    ensures EncodeChar(c) == Encode(c)
  {
  }

  lemma NotEscaped(a: Body, b: Body)
    ensures Escaped(a + b) <==> Escaped(a) || Escaped(b)
    ensures !Escaped([])
  {
    if Escaped(a) {
      var i :| 0 <= i < |a| && !a[i].Plain?;
      assert !(a + b)[i].Plain?;
    }
    if Escaped(b) {
      var i :| 0 <= i < |b| && !b[i].Plain?;
      assert !(a + b)[|a| + i].Plain?;
    }
  }

  lemma {:induction false} BodyHasNoZero(us: Body)
    requires ValidBody(us)
    ensures 0 !in BodyText(us)
  {
    if us != [] {
      BodyHasNoZero(us[1..]);
      assert ValidUnit(us[0]);
      assert 0 !in UnitText(us[0]);
    }
  }

  // The request without its terminating zero byte.

  function Request(host: seq<Byte>): seq<Byte>
    requires WellFormed(host)
  {
    PREFIX + METHOD + PARAMETERS + EncodeContents(Chars(host)) + SUFFIX
  }

  const KEY_METHOD := Ascii("method")
  const KEY_PARAMETERS := Ascii("parameters")
  const KEY_NAME := Ascii("name")

  function Named(key: seq<Byte>, value: Value): Member {
    Member([], PlainUnits(key), [], [], value, [])
  }

  // A method call with one parameter: `{"a":"b","c":{"d":"..."}}`.
  function CallTree(a: seq<Byte>, b: seq<Byte>, c: seq<Byte>, d: seq<Byte>, arg: Body): Document {
    Document([], Object(MoreMembers(
      Named(a, Str(PlainUnits(b))),
      LastMember(Named(c, Object(LastMember(Named(d, Str(arg)))))))), [])
  }

  function CallTokens(a: seq<Byte>, b: seq<Byte>, c: seq<Byte>, d: seq<Byte>, arg: Token): seq<Token> {
    [ObjectStart, Key(a), StringToken(b), Key(c), ObjectStart, Key(d), arg, ObjectEnd, ObjectEnd]
  }

  // What the resolver is asked, in words of its own interface.
  function RequestTokens(name: Token): seq<Token> {
    [ObjectStart, Key(Ascii("method")), StringToken(Ascii("io.systemd.Resolve.ResolveHostname")),
     Key(Ascii("parameters")), ObjectStart, Key(Ascii("name")), name, ObjectEnd, ObjectEnd]
  }

  predicate PlainAscii(b: seq<Byte>) {
    forall i :: 0 <= i < |b| ==> 0x20 <= b[i] < 0x80 && b[i] != QUOTE && b[i] != BACKSLASH
  }

  lemma PlainBody(b: seq<Byte>)
    requires PlainAscii(b)
    ensures ValidBody(PlainUnits(b)) && StringText(PlainUnits(b)) == [QUOTE] + b + [QUOTE]
    ensures KeyToken(PlainUnits(b)) == Key(b) && StrToken(PlainUnits(b)) == StringToken(b)
  {
    PlainText(b);
    assert forall i :: 0 <= i < |b| ==> PlainUnits(b)[i].Plain?;
  }

  lemma KeysArePlain()
    ensures PlainAscii(KEY_METHOD) && PlainAscii(METHOD) && PlainAscii(KEY_PARAMETERS) && PlainAscii(KEY_NAME)
  {
  }

  lemma PrefixParts()
    ensures PREFIX == [LBRACE, QUOTE] + KEY_METHOD + [QUOTE, COLON, QUOTE]
    ensures SUFFIX == [QUOTE, RBRACE, RBRACE]
  {
  }

  lemma ParametersParts()
    ensures PARAMETERS == [QUOTE, COMMA, QUOTE] + KEY_PARAMETERS + [QUOTE, COLON, LBRACE, QUOTE]
      + KEY_NAME + [QUOTE, COLON, QUOTE]
  {
    hide KEY_PARAMETERS, KEY_NAME;
    AsciiParts();
  }

  lemma AsciiParts()
    ensures Ascii("\",\"") == [QUOTE, COMMA, QUOTE] && Ascii("\":{\"") == [QUOTE, COLON, LBRACE, QUOTE]
    ensures Ascii("\":\"") == [QUOTE, COLON, QUOTE]
    ensures KEY_PARAMETERS == Ascii("parameters") && KEY_NAME == Ascii("name")
  {
    assert Ascii("\",\"") == [QUOTE, COMMA, QUOTE];
    assert Ascii("\":{\"") == [QUOTE, COLON, LBRACE, QUOTE];
    assert Ascii("\":\"") == [QUOTE, COLON, QUOTE];
  }

  lemma CallTreeIsValid(a: seq<Byte>, b: seq<Byte>, c: seq<Byte>, d: seq<Byte>, arg: Body)
    requires PlainAscii(a) && PlainAscii(b) && PlainAscii(c) && PlainAscii(d) && ValidBody(arg)
    ensures var t := CallTree(a, b, c, d, arg);
      ValidDocument(t) && Depth(t.value) == 2
  {
    hide PlainUnits, ValidBody, PlainAscii, StrToken, KeyToken, MemberText, MemberTokens, Text, Tokens;
    PlainBody(b);
    var inner := Named(d, Str(arg));
    var second := Named(c, Object(LastMember(inner)));
    var first := Named(a, Str(PlainUnits(b)));
    NamedText(d, Str(arg));
    NamedText(c, Object(LastMember(inner)));
    NamedText(a, Str(PlainUnits(b)));
    assert ValidMembers(LastMember(inner)) && MembersDepth(LastMember(inner)) == 0;
    assert ValidMembers(LastMember(second)) && MembersDepth(LastMember(second)) == 1;
    var all := MoreMembers(first, LastMember(second));
    assert ValidMembers(all) && MembersDepth(all) == 1;
    assert ValidValue(Object(all)) && Depth(Object(all)) == 2;
  }

  lemma CallTreeTokens(a: seq<Byte>, b: seq<Byte>, c: seq<Byte>, d: seq<Byte>, arg: Body)
    requires PlainAscii(a) && PlainAscii(b) && PlainAscii(c) && PlainAscii(d)
    ensures Tokens(CallTree(a, b, c, d, arg).value) == CallTokens(a, b, c, d, StrToken(arg))
  {
    hide PlainUnits, PlainAscii, StrToken, KeyToken, MemberText, ValidMember, Text, ValidValue;
    PlainBody(b);
    var inner := Named(d, Str(arg));
    var second := Named(c, Object(LastMember(inner)));
    var first := Named(a, Str(PlainUnits(b)));
    NamedText(d, Str(arg));
    NamedText(c, Object(LastMember(inner)));
    NamedText(a, Str(PlainUnits(b)));
    assert MembersTokens(LastMember(inner)) == [Key(d), StrToken(arg)];
    assert MembersTokens(LastMember(second)) == [Key(c), ObjectStart, Key(d), StrToken(arg), ObjectEnd];
    assert MembersTokens(MoreMembers(first, LastMember(second)))
        == [Key(a), StringToken(b)] + MembersTokens(LastMember(second));
  }

  lemma CallTreeText(a: seq<Byte>, b: seq<Byte>, c: seq<Byte>, d: seq<Byte>, arg: Body)
    requires PlainAscii(a) && PlainAscii(b) && PlainAscii(c) && PlainAscii(d)
    ensures DocumentText(CallTree(a, b, c, d, arg))
      == ([LBRACE, QUOTE] + a + [QUOTE, COLON, QUOTE]) + b
        + ([QUOTE, COMMA, QUOTE] + c + [QUOTE, COLON, LBRACE, QUOTE] + d + [QUOTE, COLON, QUOTE]) + BodyText(arg)
        + [QUOTE, RBRACE, RBRACE]
  {
    hide PlainUnits, StringText, BodyText, PlainAscii;
    PlainBody(b);
    var inner := Named(d, Str(arg));
    var second := Named(c, Object(LastMember(inner)));
    var first := Named(a, Str(PlainUnits(b)));
    NamedText(d, Str(arg));
    NamedText(c, Object(LastMember(inner)));
    NamedText(a, Str(PlainUnits(b)));
    Quoted(arg);
    Regroup(a, b, c, d, BodyText(arg));
    assert MembersText(MoreMembers(first, LastMember(second))) == MemberText(first) + [COMMA] + MemberText(second);
  }

  // The request is the print of its tree.
  lemma RequestIsTree(name: Body)
    requires ValidBody(name)
    ensures var d := CallTree(KEY_METHOD, METHOD, KEY_PARAMETERS, KEY_NAME, name);
      && ValidDocument(d) && Depth(d.value) <= JsonMachine.MAX_DEPTH
      && DocumentText(d) == PREFIX + METHOD + PARAMETERS + BodyText(name) + SUFFIX
      && Tokens(d.value) == RequestTokens(StrToken(name))
  {
    hide *;
    KeysArePlain();
    PrefixParts();
    ParametersParts();
    CallTreeIsValid(KEY_METHOD, METHOD, KEY_PARAMETERS, KEY_NAME, name);
    CallTreeTokens(KEY_METHOD, METHOD, KEY_PARAMETERS, KEY_NAME, name);
    CallTreeText(KEY_METHOD, METHOD, KEY_PARAMETERS, KEY_NAME, name);
    Shapes(StrToken(name));
  }

  lemma Shapes(name: Token)
    ensures RequestTokens(name) == CallTokens(KEY_METHOD, METHOD, KEY_PARAMETERS, KEY_NAME, name)
    ensures JsonMachine.MAX_DEPTH == 256
  {
  }

  lemma Quoted(us: Body)
    ensures StringText(us) == [QUOTE] + BodyText(us) + [QUOTE]
  {
  }

  lemma NamedText(key: seq<Byte>, value: Value)
    requires PlainAscii(key)
    ensures MemberText(Named(key, value)) == [QUOTE] + key + [QUOTE, COLON] + Text(value)
    ensures MemberTokens(Named(key, value)) == [Key(key)] + Tokens(value)
    ensures ValidMember(Named(key, value)) == ValidValue(value)
  {
    hide PlainUnits, StringText, Text, Tokens, ValidValue, KeyToken, PlainAscii, ValidBody;
    PlainBody(key);
    var t := Text(value);
    assert [] + ([QUOTE] + key + [QUOTE]) + [] + [COLON] + [] + t + [] == [QUOTE] + key + [QUOTE, COLON] + t;
  }

  // The printed members, regrouped into the parts that the encoder writes.
  lemma Regroup(a: seq<Byte>, b: seq<Byte>, c: seq<Byte>, d: seq<Byte>, e: seq<Byte>)
    ensures [] + ([LBRACE] + ([QUOTE] + a + [QUOTE, COLON] + ([QUOTE] + b + [QUOTE]) + [COMMA]
        + ([QUOTE] + c + [QUOTE, COLON]
           + ([LBRACE] + ([QUOTE] + d + [QUOTE, COLON] + ([QUOTE] + e + [QUOTE])) + [RBRACE])))
        + [RBRACE]) + []
      == ([LBRACE, QUOTE] + a + [QUOTE, COLON, QUOTE]) + b
        + ([QUOTE, COMMA, QUOTE] + c + [QUOTE, COLON, LBRACE, QUOTE] + d + [QUOTE, COLON, QUOTE]) + e
        + [QUOTE, RBRACE, RBRACE]
  {
  }

  // For every host the request is one JSON text without a zero byte. Its tokens have the one
  // fixed shape, and the `name` body is the host: as it stands when it is reported as
  // unescaped, and by decoding it when it is reported as escaped.
  lemma RequestIsAccepted(host: seq<Byte>) returns (name: Token)
    requires WellFormed(host)
    ensures 0 !in Request(host)
    ensures JsonMachine.Accepts(Request(host), RequestTokens(name))
    ensures name == StringToken(host) || name.EscapeStringToken?
    ensures name.EscapeStringToken? ==>
      && (exists i :: 0 <= i < |Chars(host)| && !Verbatim(Chars(host)[i]))
      && WellFormed(name.raw) && DecodeAll(name.raw, 0) == Decoded(Chars(host), None)
      && Fill(name.raw, 0, 0, |name.raw|) == Ok(host)
  {
    hide *;
    var cs := Chars(host);
    var us := Units(cs);
    UnitsText(cs);
    EncodeAllOfChars(host);
    DecodeOfEncode(cs, 0);
    RawLengthSuffices(BodyText(us), 0, 0, |BodyText(us)|);
    RequestIsTree(us);
    JsonComplete.DocumentIsAccepted(CallTree(KEY_METHOD, METHOD, KEY_PARAMETERS, KEY_NAME, us));
    name := StrToken(us);
    RequestHasNoZero(host, us);
  }

  lemma RequestHasNoZero(host: seq<Byte>, us: Body)
    requires WellFormed(host) && ValidBody(us) && BodyText(us) == EncodeContents(Chars(host))
    ensures 0 !in Request(host)
    ensures Request(host) == PREFIX + METHOD + PARAMETERS + BodyText(us) + SUFFIX
    ensures StrToken(us) == if Escaped(us) then EscapeStringToken(BodyText(us)) else StringToken(BodyText(us))
  {
    hide WellFormed, Chars, EncodeContents, BodyText, ValidUnit;
    BodyHasNoZero(us);
    assert 0 !in PREFIX && 0 !in METHOD && 0 !in PARAMETERS && 0 !in SUFFIX;
  }

  // The encoder. It appends to the buffer it is given.
  method EncodeJsonStringContents(value: seq<Byte>, buffer: seq<Byte>) returns (encoded: seq<Byte>)
    requires WellFormed(value)
    ensures encoded == buffer + EncodeContents(Chars(value))
  {
    hide WellFormed, Chars, CharLen, Encode;
    encoded := buffer;
    var rest := Chars(value);
    while rest != []
      invariant encoded + EncodeContents(rest) == buffer + EncodeContents(Chars(value))
      decreases |rest|
    {
      var character := rest[0];
      var piece;
      match character {
        case 0x22 => piece := [BACKSLASH, 0x22];
        case 0x5C => piece := [BACKSLASH, 0x5C];
        case 0x2F => piece := [BACKSLASH, 0x2F];
        case 0x08 => piece := [BACKSLASH, 0x62];
        case 0x0C => piece := [BACKSLASH, 0x66];
        case 0x0A => piece := [BACKSLASH, 0x6E];
        case 0x0D => piece := [BACKSLASH, 0x72];
        case 0x09 => piece := [BACKSLASH, 0x74];
        case _ =>
          if character <= 0x1F {
            piece := [BACKSLASH, 0x75, 0x30, 0x30, HexDigitOf(character / 16), HexDigitOf(character % 16)];
          } else {
            piece := Encode(character);
          }
      }
      assert piece == EncodeChar(character);
      assert (encoded + piece) + EncodeContents(rest[1..]) == encoded + (piece + EncodeContents(rest[1..]));
      encoded := encoded + piece;
      rest := rest[1..];
    }
  }

  method EncodeVarlinkRequest(host: seq<Byte>) returns (request: seq<Byte>, ghost name: Token)
    requires WellFormed(host)
    ensures |request| > 0
    ensures forall i :: 0 <= i < |request| ==> (request[i] == 0 <==> i == |request| - 1)
    ensures JsonMachine.Accepts(request[..|request| - 1], RequestTokens(name))
    ensures name == StringToken(host) || name.EscapeStringToken?
    ensures name.EscapeStringToken? ==>
      WellFormed(name.raw) && DecodeAll(name.raw, 0) == Decoded(Chars(host), None)
  {
    hide WellFormed, Chars, EncodeContents, BodyText, JsonMachine.Accepts, DecodeAll;
    name := RequestIsAccepted(host);
    request := PREFIX;
    request := request + METHOD;
    request := request + PARAMETERS;
    request := EncodeJsonStringContents(host, request);
    request := request + SUFFIX;
    assert request == Request(host);
    request := request + [0];
    assert request[..|request| - 1] == Request(host);
  }
}

module VarlinkFraming {
  import opened Bytes

  const MAX_VARLINK_REPLY_SIZE := 65536
  const VARLINK_READ_CHUNK := 4096

  datatype ExchangeError = Transport | TooLong

  // The position of the first zero byte, or the length if there is none.
  function FirstZero(s: seq<Byte>): (t: nat)
    ensures t <= |s| && (t < |s| ==> s[t] == 0)
    ensures forall i :: 0 <= i < t ==> s[i] != 0
  {
    if s == [] || s[0] == 0 then 0 else 1 + FirstZero(s[1..])
  }

  // What one call returns, and the bytes that stay unread, given every byte that is buffered
  // or still to come. How the bytes arrive does not enter.
  datatype Outcome = Outcome(result: Result<seq<Byte>, ExchangeError>, rest: seq<Byte>)

  function NextFrame(total: seq<Byte>): Outcome {
    var t := FirstZero(total);
    if t < |total| && t <= MAX_VARLINK_REPLY_SIZE then Outcome(Ok(total[..t]), total[t + 1..])
    else if |total| > MAX_VARLINK_REPLY_SIZE then Outcome(Err(TooLong), total[MAX_VARLINK_REPLY_SIZE + 1..])
    else Outcome(Err(Transport), total)
  }

  lemma {:induction false} FirstZeroAppend(s: seq<Byte>, t: seq<Byte>)
    ensures FirstZero(s + t) == if FirstZero(s) < |s| then FirstZero(s) else |s| + FirstZero(t)
  {
    if s == [] {
      assert s + t == t;
    } else {
      assert (s + t)[1..] == s[1..] + t;
      FirstZeroAppend(s[1..], t);
    }
  }

  // What is decided from the buffer alone, whatever is still to come.
  lemma NextFrameOfBuffer(input: seq<Byte>, coming: seq<Byte>)
    requires |input| <= MAX_VARLINK_REPLY_SIZE + 1
    ensures var t := FirstZero(input);
      && (t < |input| ==>
            t <= MAX_VARLINK_REPLY_SIZE && input[t] == 0
            && NextFrame(input + coming) == Outcome(Ok(input[..t]), input[t + 1..] + coming))
      && (t == |input| > MAX_VARLINK_REPLY_SIZE ==> NextFrame(input + coming) == Outcome(Err(TooLong), coming))
      && (t == |input| <= MAX_VARLINK_REPLY_SIZE && coming == [] ==>
            NextFrame(input + coming) == Outcome(Err(Transport), input))
  {
    hide FirstZero;
    FirstZeroAppend(input, coming);
    var t, total := FirstZero(input), input + coming;
    if t < |input| {
      assert total[..t] == input[..t] && total[t + 1..] == input[t + 1..] + coming;
    } else {
      assert total[|input|..] == coming;
      assert coming == [] ==> total == input;
    }
  }

  // A call fails as too long exactly if the stream has more than 65536 bytes and no zero byte among the
  // first 65537, and as a transport failure exactly if it ends before that without one.
  lemma FrameErrors(total: seq<Byte>)
    ensures NextFrame(total).result == Err(TooLong) <==>
      |total| > 65536 && forall i :: 0 <= i <= 65536 ==> total[i] != 0
    ensures NextFrame(total).result == Err(Transport) <==> |total| <= 65536 && 0 !in total
  {
    hide FirstZero;
    var t := FirstZero(total);
    assert 0 in total ==> t < |total|;
  }

  // A connected socket: the bytes that it delivers before it ends, and whether it then fails.
  class ByteStream {
    var pending: seq<Byte>
    const broken: bool

    constructor (bytes: seq<Byte>, fails: bool)
      ensures pending == bytes && broken == fails
    {
      pending := bytes;
      broken := fails;
    }

    // One read into a buffer of `limit` bytes: any positive number of the bytes still to come.
    method TryRead(limit: nat) returns (data: Result<seq<Byte>, ExchangeError>)
      requires limit > 0
      modifies this
      ensures data.Ok? ==> |data.value| <= limit && data.value + pending == old(pending)
      ensures data.Ok? && data.value == [] ==> pending == [] && !broken
      ensures data.Err? ==> data.error == Transport && pending == old(pending) == [] && broken
    {
      if pending == [] {
        return if broken then Err(Transport) else Ok([]);
      }
      var amount :| 0 < amount <= limit && amount <= |pending|;
      data := Ok(pending[..amount]);
      pending := pending[amount..];
    }
  }

  class VarlinkConnection {
    const stream: ByteStream
    var input: seq<Byte>

    ghost predicate Valid()
      reads this
    {
      |input| <= MAX_VARLINK_REPLY_SIZE + 1
    }

    ghost function Total(): seq<Byte>
      reads this, stream
    {
      input + stream.pending
    }

    constructor (s: ByteStream)
      ensures stream == s && Valid() && Total() == s.pending
    {
      stream := s;
      input := [];
      new;
      assert Total() == s.pending;
    }

    // Reads one frame. The result and the bytes left over are those of `NextFrame`, however
    // the stream cuts the bytes into chunks. The caller discards the connection after an error.
    method ReadFrame() returns (r: Result<seq<Byte>, ExchangeError>)
      requires Valid()
      modifies this, stream
      ensures Valid()
      ensures r == NextFrame(old(Total())).result
      ensures r.Ok? || r.error == TooLong || !stream.broken ==> Total() == NextFrame(old(Total())).rest
    {
      hide FirstZero, NextFrame;
      while true
        invariant Valid() && Total() == old(Total())
        decreases |stream.pending|
      {
        NextFrameOfBuffer(input, stream.pending);
        var terminator := FirstZero(input);
        if terminator < |input| {
          if terminator > MAX_VARLINK_REPLY_SIZE {
            assert false;
          }
          var frame := input[..terminator + 1];
          assert frame[..terminator] == input[..terminator];
          input := input[terminator + 1..];
          if frame[|frame| - 1] != 0 {
            assert false;
          }
          frame := frame[..|frame| - 1];
          return Ok(frame);
        }
        if |input| > MAX_VARLINK_REPLY_SIZE {
          input := [];
          assert Total() == stream.pending;
          return Err(TooLong);
        }
        var remaining := MAX_VARLINK_REPLY_SIZE + 1 - |input|;
        var readSize := if remaining < VARLINK_READ_CHUNK then remaining else VARLINK_READ_CHUNK;
        var amount := Extend(readSize);
        if amount.Err? {
          return Err(amount.error);
        }
        if amount.value == 0 {
          assert Total() == input;
          return Err(Transport);
        }
      }
    }

    // Reads at most `readSize` bytes straight into the buffer, which is first lengthened and
    // then cut to what arrived.
    method Extend(readSize: nat) returns (amount: Result<nat, ExchangeError>)
      requires readSize > 0
      modifies this, stream
      ensures amount.Ok? ==>
        && Total() == old(Total()) && |input| == old(|input|) + amount.value && amount.value <= readSize
        && |stream.pending| == old(|stream.pending|) - amount.value
      ensures amount.Ok? && amount.value == 0 ==> old(stream.pending) == [] == stream.pending && input == old(input)
      ensures amount.Err? ==> amount.error == Transport && stream.broken && |input| == old(|input|) + readSize
      ensures amount.Err? ==> old(stream.pending) == []
    {
      var filled := |input|;
      ghost var before := input;
      input := input + Zeros(readSize);
      var data := stream.TryRead(readSize);
      if data.Err? {
        return Err(data.error);
      }
      input := Overwrite(input, filled, data.value);
      input := input[..filled + |data.value|];
      assert input == before + data.value;
      assert before + data.value + stream.pending == before + (data.value + stream.pending);
      return Ok(|data.value|);
    }
  }

  function Zeros(n: nat): seq<Byte> {
    seq(n, _ => 0)
  }

  // A read stores its bytes from position `at`.
  function Overwrite(s: seq<Byte>, at: nat, data: seq<Byte>): seq<Byte>
    requires at + |data| <= |s|
  {
    s[..at] + data + s[at + |data|..]
  }

  // Repeated calls.

  function Calls(total: seq<Byte>, n: nat): (seq<Result<seq<Byte>, ExchangeError>>, seq<Byte>) {
    if n == 0 then ([], total)
    else
      var first := NextFrame(total);
      var more := Calls(first.rest, n - 1);
      ([first.result] + more.0, more.1)
  }

  predicate Frame(f: seq<Byte>) {
    |f| <= MAX_VARLINK_REPLY_SIZE && 0 !in f
  }

  // The wire form of a sequence of frames.
  function Wire(frames: seq<seq<Byte>>): seq<Byte> {
    if frames == [] then [] else frames[0] + [0] + Wire(frames[1..])
  }

  function Oks(frames: seq<seq<Byte>>): (r: seq<Result<seq<Byte>, ExchangeError>>)
    ensures |r| == |frames| && forall i :: 0 <= i < |r| ==> r[i] == Ok(frames[i])
  {
    seq(|frames|, i requires 0 <= i < |frames| => Ok(frames[i]))
  }

  predicate AllFrames(fs: seq<seq<Byte>>) {
    fs == [] || (Frame(fs[0]) && AllFrames(fs[1..]))
  }

  // Successive calls return exactly the frames `fs`, in their order, and leave `tail`, if and
  // only if the bytes are the wire form of `fs` followed by `tail`.
  lemma {:induction false} CallsReturnFrames(total: seq<Byte>, fs: seq<seq<Byte>>, tail: seq<Byte>)
    ensures Calls(total, |fs|) == (Oks(fs), tail) <==> AllFrames(fs) && total == Wire(fs) + tail
    decreases |fs|
  {
    if fs == [] {
      assert Wire(fs) + tail == tail;
    } else {
      CallsReturnFrames(NextFrame(total).rest, fs[1..], tail);
      CallsStep(total, fs, tail);
    }
  }

  lemma CallsStep(total: seq<Byte>, fs: seq<seq<Byte>>, tail: seq<Byte>)
    requires fs != []
    requires var rest := NextFrame(total).rest;
      Calls(rest, |fs[1..]|) == (Oks(fs[1..]), tail) <==> AllFrames(fs[1..]) && rest == Wire(fs[1..]) + tail
    ensures Calls(total, |fs|) == (Oks(fs), tail) <==> AllFrames(fs) && total == Wire(fs) + tail
  {
    hide NextFrame, Frame, Wire, Oks, AllFrames;
    var first := NextFrame(total);
    FirstFrame(total, fs[0], Wire(fs[1..]) + tail);
    Cons(fs, tail);
    ConsInjective(first.result, Calls(first.rest, |fs| - 1).0, Ok(fs[0]), Oks(fs[1..]));
  }

  lemma Cons(fs: seq<seq<Byte>>, tail: seq<Byte>)
    requires fs != []
    ensures Wire(fs) + tail == fs[0] + [0] + (Wire(fs[1..]) + tail)
    ensures Oks(fs) == [Ok(fs[0])] + Oks(fs[1..])
    ensures AllFrames(fs) <==> Frame(fs[0]) && AllFrames(fs[1..])
  {
    hide Frame;
    assert Wire(fs) + tail == fs[0] + [0] + (Wire(fs[1..]) + tail);
    assert Oks(fs) == [Ok(fs[0])] + Oks(fs[1..]);
  }

  lemma ConsInjective<T>(a: T, s: seq<T>, b: T, t: seq<T>)
    ensures [a] + s == [b] + t <==> a == b && s == t
  {
    if [a] + s == [b] + t {
      assert ([a] + s)[0] == a && ([b] + t)[0] == b;
      assert ([a] + s)[1..] == s && ([b] + t)[1..] == t;
    }
  }

  // One call returns `f` and leaves `rest` exactly when the bytes are `f`, a zero byte and `rest`.
  lemma FirstFrame(total: seq<Byte>, f: seq<Byte>, rest: seq<Byte>)
    ensures NextFrame(total) == Outcome(Ok(f), rest) <==> Frame(f) && total == f + [0] + rest
    ensures NextFrame(total).result == Ok(f) ==> total == f + [0] + NextFrame(total).rest
  {
    var t := FirstZero(total);
    if |f| < |total| && total[..|f|] == f && 0 !in f && total[|f|] == 0 {
      assert forall i :: 0 <= i < |f| ==> total[i] == f[i];
      assert t == |f|;
    }
    if t < |total| {
      assert total == total[..t] + [0] + total[t + 1..];
      assert 0 !in total[..t];
    }
    if total == f + [0] + rest {
      assert total[..|f|] == f && total[|f| + 1..] == rest;
    }
  }
}
