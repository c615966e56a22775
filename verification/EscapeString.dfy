// The deferred decoding of a JSON string body.
//
// The meaning of a body is given through UTF-16, as section 7 of RFC 8259 gives it: every
// plain character and every escape sequence contributes code units, and the decoded text is
// the one whose UTF-16 form is that sequence of code units.
module EscapeSpec {
  import opened Bytes
  import opened Utf8
  import opened JsonError
  import opened JsonGrammar
  import JsonScan

  // UTF-16.

  predicate High(u: int) {
    0xD800 <= u < 0xDC00
  }

  predicate Low(u: int) {
    0xDC00 <= u < 0xE000
  }

  function Utf16(c: Scalar): (u: seq<int>)
    ensures 1 <= |u| <= 2
    ensures |u| == 1 ==> !High(u[0]) && !Low(u[0])
    ensures |u| == 2 ==> High(u[0]) && Low(u[1])
  {
    if c < 0x10000 then [c] else [0xD800 + (c - 0x10000) / 1024, 0xDC00 + (c - 0x10000) % 1024]
  }

  function Utf16All(cs: seq<Scalar>): seq<int> {
    if cs == [] then [] else Utf16(cs[0]) + Utf16All(cs[1..])
  }

  // The character of a surrogate pair.
  function Combine(high: int, low: int): Scalar
    requires High(high) && Low(low)
  {
    0x10000 + (high - 0xD800) * 1024 + (low - 0xDC00)
  }

  lemma CombineIsPair(high: int, low: int)
    requires High(high) && Low(low)
    ensures Utf16(Combine(high, low)) == [high, low]
  {
  }

  lemma Utf16Injective(a: Scalar, b: Scalar)
    requires Utf16(a) == Utf16(b)
    ensures a == b
  {
    if a >= 0x10000 {
      assert (a - 0x10000) / 1024 == (b - 0x10000) / 1024;
      assert (a - 0x10000) % 1024 == (b - 0x10000) % 1024;
    }
  }

  // The first character can be read off the code units.
  lemma Utf16Prefix(c: Scalar, rest: seq<int>, cs: seq<Scalar>)
    requires Utf16(c) + rest == Utf16All(cs)
    ensures cs != [] && cs[0] == c && rest == Utf16All(cs[1..])
  {
    assert cs != [];
    var u, v := Utf16(c), Utf16(cs[0]);
    assert (u + rest)[0] == u[0] && (v + Utf16All(cs[1..]))[0] == v[0];
    assert |u| == |v|;
    assert (u + rest)[..|u|] == u && (v + Utf16All(cs[1..]))[..|v|] == v;
    Utf16Injective(c, cs[0]);
    assert (u + rest)[|u|..] == rest && (v + Utf16All(cs[1..]))[|v|..] == Utf16All(cs[1..]);
  }

  // Hexadecimal digits.

  function Nibble(b: Byte): (n: int)
    requires HexDigit(b)
    ensures 0 <= n < 16
  {
    if b <= 0x39 then b - 0x30 else if b <= 0x46 then b as int - 0x41 + 10 else b as int - 0x61 + 10
  }

  predicate AllHex(d: seq<Byte>) {
    forall i :: 0 <= i < |d| ==> HexDigit(d[i])
  }

  // The value of a string of hexadecimal digits, most significant first.
  function HexValue(d: seq<Byte>): int
    requires AllHex(d)
  {
    if d == [] then 0 else HexValue(d[..|d| - 1]) * 16 + Nibble(d[|d| - 1])
  }

  lemma HexValue4(d: seq<Byte>)
    requires AllHex(d) && |d| == 4
    ensures 0 <= HexValue(d) <= 0xFFFF
    ensures HexValue(d) == Nibble(d[0]) * 4096 + Nibble(d[1]) * 256 + Nibble(d[2]) * 16 + Nibble(d[3])
  {
    var c, b, a := d[..3], d[..2], d[..1];
    assert c[..2] == b && b[..1] == a && a[..0] == [];
    assert HexValue(a) == Nibble(d[0]);
    assert HexValue(b) == HexValue(a) * 16 + Nibble(d[1]);
    assert HexValue(c) == HexValue(b) * 16 + Nibble(d[2]);
  }

  // The digits of either case, by their values.
  const LOWER: seq<Byte> :=
    [0x30, 0x31, 0x32, 0x33, 0x34, 0x35, 0x36, 0x37, 0x38, 0x39, 0x61, 0x62, 0x63, 0x64, 0x65, 0x66]
  const UPPER: seq<Byte> :=
    [0x30, 0x31, 0x32, 0x33, 0x34, 0x35, 0x36, 0x37, 0x38, 0x39, 0x41, 0x42, 0x43, 0x44, 0x45, 0x46]

  // The value of a digit is its position, in either case, and there are no other digits.
  lemma NibbleIsPosition(b: Byte)
    ensures forall i :: 0 <= i < 16 ==> HexDigit(LOWER[i]) && Nibble(LOWER[i]) == i
    ensures forall i :: 0 <= i < 16 ==> HexDigit(UPPER[i]) && Nibble(UPPER[i]) == i
    ensures HexDigit(b) <==> b in LOWER || b in UPPER
  {
    if HexDigit(b) {
      assert b == LOWER[Nibble(b)] || b == UPPER[Nibble(b)];
    }
  }

  function DigitOf(value: int, upper: bool): Byte
    requires 0 <= value < 16
  {
    if upper then UPPER[value] else LOWER[value]
  }

  // A number below 65536 as four digits, each in its own case.
  function PrintHex(n: nat, upper: seq<bool>): seq<Byte>
    requires n < 65536 && |upper| == 4
  {
    [DigitOf(n / 4096, upper[0]), DigitOf(n / 256 % 16, upper[1]), DigitOf(n / 16 % 16, upper[2]),
     DigitOf(n % 16, upper[3])]
  }

  // Reading four digits inverts printing them, whatever their case, and every four digits are
  // printed that way.
  lemma HexRoundTrip(n: nat, upper: seq<bool>)
    requires n < 65536 && |upper| == 4
    ensures AllHex(PrintHex(n, upper)) && HexValue(PrintHex(n, upper)) == n
  {
    hide HexValue, Nibble, HexDigit, LOWER, UPPER;
    var d := PrintHex(n, upper);
    forall i | 0 <= i < 4
      ensures HexDigit(d[i])
    {
      NibbleIsPosition(d[i]);
    }
    HexValue4(d);
    NibbleIsPosition(0);
    Nibbles(n);
  }

  lemma Nibbles(n: nat)
    requires n < 65536
    ensures n == n / 4096 * 4096 + n / 256 % 16 * 256 + n / 16 % 16 * 16 + n % 16
  {
    assert n / 256 == n / 4096 * 16 + n / 256 % 16;
    assert n / 16 == n / 256 * 16 + n / 16 % 16;
  }

  lemma HexIsPrinted(d: seq<Byte>) returns (upper: seq<bool>)
    requires |d| == 4 && AllHex(d)
    ensures |upper| == 4 && 0 <= HexValue(d) < 65536 && d == PrintHex(HexValue(d), upper)
  {
    hide HexValue, Nibble, HexDigit, LOWER, UPPER;
    upper := [d[0] in UPPER, d[1] in UPPER, d[2] in UPPER, d[3] in UPPER];
    HexValue4(d);
    forall i | 0 <= i < 4
      ensures d[i] == DigitOf(Nibble(d[i]), upper[i])
    {
      IsDigitOf(d[i]);
    }
    Positions(Nibble(d[0]), Nibble(d[1]), Nibble(d[2]), Nibble(d[3]));
  }

  lemma IsDigitOf(b: Byte)
    requires HexDigit(b)
    ensures b == DigitOf(Nibble(b), b in UPPER)
  {
    NibbleIsPosition(b);
    if b in UPPER {
      var i :| 0 <= i < 16 && UPPER[i] == b;
    } else {
      var i :| 0 <= i < 16 && LOWER[i] == b;
    }
  }

  lemma Positions(a: int, b: int, c: int, d: int)
    requires 0 <= a < 16 && 0 <= b < 16 && 0 <= c < 16 && 0 <= d < 16
    ensures var n := a * 4096 + b * 256 + c * 16 + d;
      n / 4096 == a && n / 256 % 16 == b && n / 16 % 16 == c && n % 16 == d
  {
    var n := a * 4096 + b * 256 + c * 16 + d;
    assert n / 16 == a * 256 + b * 16 + c;
    assert n / 256 == a * 16 + b;
  }

  predicate HexAt(raw: seq<Byte>, at: nat) {
    at + 4 <= |raw| && AllHex(raw[at..at + 4])
  }

  function Hex4(raw: seq<Byte>, at: nat): (u: int)
    requires HexAt(raw, at)
    ensures 0 <= u <= 0xFFFF
  {
    HexValue4(raw[at..at + 4]);
    HexValue(raw[at..at + 4])
  }

  // The character of a two-byte escape.
  function SimpleValue(b: Byte): Scalar
    requires SimpleEscape(b)
  {
    if b == 0x62 then 0x08
    else if b == 0x66 then 0x0C
    else if b == 0x6E then 0x0A
    else if b == 0x72 then 0x0D
    else if b == 0x74 then 0x09
    else b
  }

  // The two-byte escapes of section 7 of RFC 8259: " \ / b f n r t, and what they stand for.
  const ESCAPES: seq<(Byte, Scalar)> := [
    (0x22, 0x22), (0x5C, 0x5C), (0x2F, 0x2F), (0x62, 0x08), (0x66, 0x0C), (0x6E, 0x0A), (0x72, 0x0D), (0x74, 0x09)]

  lemma SimpleEscapesAre(b: Byte)
    ensures forall i :: 0 <= i < 8 ==> SimpleEscape(ESCAPES[i].0) && SimpleValue(ESCAPES[i].0) == ESCAPES[i].1
    ensures SimpleEscape(b) <==> exists i :: 0 <= i < 8 && ESCAPES[i].0 == b
  {
    if SimpleEscape(b) {
      assert b in [ESCAPES[0].0, ESCAPES[1].0, ESCAPES[2].0, ESCAPES[3].0, ESCAPES[4].0, ESCAPES[5].0, ESCAPES[6].0,
                   ESCAPES[7].0];
    }
  }

  // Bodies whose every backslash starts an escape sequence of the grammar.
  predicate WellEscaped(raw: seq<Byte>)
    decreases |raw|
  {
    if raw == [] then true
    else if raw[0] != BACKSLASH then CharLen(raw) > 0 && WellEscaped(raw[CharLen(raw)..])
    else if |raw| < 2 then false
    else if SimpleEscape(raw[1]) then WellEscaped(raw[2..])
    else raw[1] == 0x75 && HexAt(raw, 2) && WellEscaped(raw[6..])
  }

  // The length of the first character or escape sequence of a body.
  function PieceLen(raw: seq<Byte>): (n: nat)
    requires raw != [] && WellEscaped(raw)
    ensures 0 < n <= |raw| && WellEscaped(raw[n..])
  {
    if raw[0] != BACKSLASH then CharLen(raw) else if SimpleEscape(raw[1]) then 2 else 6
  }

  // The code units that it stands for.
  function PieceUnits(raw: seq<Byte>): (u: seq<int>)
    requires raw != [] && WellEscaped(raw)
    ensures |u| > 0
  {
    if raw[0] != BACKSLASH then Utf16(Decode(raw))
    else if SimpleEscape(raw[1]) then [SimpleValue(raw[1])]
    else [Hex4(raw, 2)]
  }

  // The code units of a body.
  function CodeUnits(raw: seq<Byte>): seq<int>
    requires WellEscaped(raw)
    decreases |raw|
  {
    if raw == [] then [] else PieceUnits(raw) + CodeUnits(raw[PieceLen(raw)..])
  }

  // The body stands for a text.
  ghost predicate Paired(raw: seq<Byte>)
    requires WellEscaped(raw)
  {
    exists cs: seq<Scalar> :: Utf16All(cs) == CodeUnits(raw)
  }

  // Every string body of the grammar is such a body.
  lemma {:induction false} BodyIsWellEscaped(us: Body)
    requires ValidBody(us) && WellFormed(BodyText(us))
    ensures WellEscaped(BodyText(us))
  {
    SuffixIsWellEscaped(BodyText(us), us);
  }

  lemma {:induction false} SuffixIsWellEscaped(raw: seq<Byte>, us: Body)
    requires ValidBody(us) && raw == BodyText(us) && WellFormed(raw)
    ensures WellEscaped(raw)
    decreases |raw|
  {
    hide CharLen, Continuation;
    if us != [] {
      var u := us[0];
      var n := |UnitText(u)|;
      assert raw[..n] == UnitText(u) && raw[n..] == BodyText(us[1..]);
      assert forall i :: 0 <= i < n ==> raw[i] == UnitText(u)[i];
      if u.Plain? {
        var rest := PlainChar(raw, us);
        SuffixIsWellEscaped(raw[CharLen(raw)..], rest);
      } else {
        assert raw[n - 1] <= 0x7F;
        BoundaryAfterAscii(raw, n - 1);
        SplitAt(raw, n);
        SuffixIsWellEscaped(raw[n..], us[1..]);
        if u.Hex? { assert raw[2..6] == u.digits; }
      }
    }
  }

  // A character that starts with a plain byte consists of plain bytes.
  lemma {:induction false} PlainChar(raw: seq<Byte>, us: Body) returns (rest: Body)
    requires ValidBody(us) && raw == BodyText(us) && WellFormed(raw) && us != [] && us[0].Plain?
    ensures CharLen(raw) > 0 && WellFormed(raw[CharLen(raw)..])
    ensures ValidBody(rest) && BodyText(rest) == raw[CharLen(raw)..]
    ensures raw[0] != BACKSLASH
  {
    var n := CharLen(raw);
    CharShape(raw);
    rest := us;
    var k := 0;
    assert raw[0..] == raw;
    while k < n
      invariant 0 <= k <= n && ValidBody(rest) && BodyText(rest) == raw[k..]
      invariant k < n ==> rest != [] && rest[0].Plain?
    {
      assert raw[k] == raw[k..][0] == UnitText(rest[0])[0];
      assert raw[k + 1..] == raw[k..][1..] == BodyText(rest[1..]);
      rest := rest[1..];
      k := k + 1;
      if k < n {
        assert Continuation(raw[k]);
        assert |raw[k..]| > 0;
        assert raw[k] == raw[k..][0] == UnitText(rest[0])[0];
      }
    }
  }
}

module EscapeDecode {
  import opened Bytes
  import opened Utf8
  import opened JsonError
  import opened JsonGrammar
  import opened EscapeSpec

  // One step of the iterator on a non-empty rest: the next character and the bytes consumed
  // for it, or the kind of the failure.
  function Step(raw: seq<Byte>): (r: Result<(Scalar, nat), ErrorKind>)
    requires raw != [] && WellFormed(raw)
    ensures r.Ok? ==> 0 < r.value.1 <= |raw|
  {
    if raw[0] != BACKSLASH then Ok((Decode(raw), CharLen(raw)))
    else if |raw| < 2 then Err(InvalidEscape)
    else if SimpleEscape(raw[1]) then Ok((SimpleValue(raw[1]), 2))
    else if raw[1] == 0x75 then UnicodeStep(raw)
    else Err(InvalidEscape)
  }

  function UnicodeStep(raw: seq<Byte>): (r: Result<(Scalar, nat), ErrorKind>)
    ensures r.Ok? ==> 0 < r.value.1 <= |raw|
  {
    if !HexAt(raw, 2) then Err(InvalidEscape)
    else
      var leading := Hex4(raw, 2);
      if High(leading) then
        if !SecondEscape(raw) then Err(LoneSurrogate)
        else if !HexAt(raw, 8) then Err(InvalidEscape)
        else if !Low(Hex4(raw, 8)) then Err(LoneSurrogate)
        else Ok((Combine(leading, Hex4(raw, 8)), 12))
      else if Low(leading) then Err(LoneSurrogate)
      else Ok((leading, 6))
  }

  // A second `\u` follows the first one.
  predicate SecondEscape(raw: seq<Byte>) {
    |raw| >= 8 && raw[6] == BACKSLASH && raw[7] == 0x75
  }

  // A step ends at a character boundary.
  lemma StepBoundary(raw: seq<Byte>)
    requires raw != [] && WellFormed(raw) && Step(raw).Ok?
    ensures var n := Step(raw).value.1; Boundary(raw, n) && WellFormed(raw[n..])
  {
    hide CharLen, Decode, UnicodeStep, SimpleValue;
    var n := Step(raw).value.1;
    if raw[0] != BACKSLASH {
      if n < |raw| {
        CharShape(raw[n..]);
      }
    } else if SimpleEscape(raw[1]) {
      BoundaryAfterAscii(raw, 1);
    } else {
      UnicodeEndsHex(raw);
      BoundaryAfterAscii(raw, n - 1);
    }
    SplitAt(raw, n);
  }

  lemma UnicodeEndsHex(raw: seq<Byte>)
    requires UnicodeStep(raw).Ok?
    ensures HexDigit(raw[UnicodeStep(raw).value.1 - 1])
  {
    hide HexValue;
    assert raw[2..6][3] == raw[5];
    if UnicodeStep(raw).value.1 == 12 {
      assert raw[8..12][3] == raw[11];
    }
  }

  // What the iterator yields in all: the characters, and the error that ends it, if any.
  datatype Decoded = Decoded(chars: seq<Scalar>, error: Option<Error>)

  function DecodeAll(raw: seq<Byte>, offset: nat): Decoded
    requires WellFormed(raw)
    decreases |raw|
  {
    if raw == [] then Decoded([], None)
    else
      match Step(raw)
      case Err(kind) => Decoded([], Some(Error(kind, offset)))
      case Ok((c, n)) =>
        StepBoundary(raw);
        var rest := DecodeAll(raw[n..], offset + n);
        Decoded([c] + rest.chars, rest.error)
  }

  // Decoding fails exactly when a surrogate is unpaired, with `LoneSurrogate` and nothing
  // else; otherwise it gives the text whose UTF-16 form the body spells out.
  lemma {:induction false} DecodingFollowsUtf16(raw: seq<Byte>, offset: nat)
    requires WellFormed(raw) && WellEscaped(raw)
    ensures var d := DecodeAll(raw, offset);
      && (d.error.None? <==> Paired(raw))
      && (d.error.None? ==> Utf16All(d.chars) == CodeUnits(raw))
      && (d.error.Some? ==> d.error.value.kind == LoneSurrogate && offset <= d.error.value.offset <= offset + |raw|)
    decreases |raw|
  {
    hide CharLen, Decode, PieceUnits, PieceLen, WellEscaped, Paired, Step, Utf16;
    if raw == [] {
      EmptyPaired();
    } else if Step(raw).Err? {
      LoneIsUnpaired(raw);
    } else {
      var (c, n) := Step(raw).value;
      StepBoundary(raw);
      StepUnits(raw);
      var rest := raw[n..];
      DecodingFollowsUtf16(rest, offset + n);
      FirstCharPaired(raw, c, rest);
      assert DecodeAll(raw, offset).chars[1..] == DecodeAll(rest, offset + n).chars;
    }
  }

  // Code units that begin with a surrogate that has no partner.
  predicate StartsUnpaired(units: seq<int>) {
    |units| > 0 && (Low(units[0]) || (High(units[0]) && (|units| == 1 || !Low(units[1]))))
  }

  // The error stands at the first escape sequence of an unpaired surrogate: everything before has been
  // decoded.
  lemma {:induction false} LoneSurrogateOffset(raw: seq<Byte>, offset: nat)
    requires WellFormed(raw) && WellEscaped(raw) && DecodeAll(raw, offset).error.Some?
    ensures var d := DecodeAll(raw, offset);
      var o := d.error.value.offset - offset;
      && 0 <= o < |raw| && WellEscaped(raw[o..]) && StartsUnpaired(CodeUnits(raw[o..]))
      && CodeUnits(raw) == Utf16All(d.chars) + CodeUnits(raw[o..])
    decreases |raw|
  {
    hide WellFormed, CharLen, Decode, PieceUnits, PieceLen, WellEscaped, Paired, Step, Utf16, Utf16All, CodeUnits;
    if Step(raw).Err? {
      LoneIsUnpaired(raw);
      assert raw[0..] == raw;
      NoCharsYet(CodeUnits(raw));
    } else {
      var (c, n) := Step(raw).value;
      StepBoundary(raw);
      StepUnits(raw);
      var rest := raw[n..];
      LoneSurrogateOffset(rest, offset + n);
      var d := DecodeAll(rest, offset + n);
      var o := d.error.value.offset - offset - n;
      assert rest[o..] == raw[n + o..];
      OneCharMore(c, d.chars, CodeUnits(rest[o..]));
    }
  }

  // Bodies of any kind. What can stand where decoding fails: a backslash that starts no escape sequence,
  // also as the second one of a pair, and a surrogate without its partner.

  predicate HexEscape(r: seq<Byte>) {
    |r| >= 2 && r[0] == BACKSLASH && r[1] == 0x75 && HexAt(r, 2)
  }

  predicate NoEscape(r: seq<Byte>) {
    r != [] && r[0] == BACKSLASH && !HexEscape(r) && (|r| < 2 || !SimpleEscape(r[1]))
  }

  // A high surrogate, and a second `\u` without its digits.
  predicate NoSecond(r: seq<Byte>) {
    HexEscape(r) && High(Hex4(r, 2)) && |r| >= 8 && r[6] == BACKSLASH && r[7] == 0x75 && !HexEscape(r[6..])
  }

  predicate Lone(r: seq<Byte>) {
    && HexEscape(r)
    && (Low(Hex4(r, 2))
        || (High(Hex4(r, 2)) && !NoSecond(r) && !(HexEscape(r[6..]) && Low(Hex4(r[6..], 2)))))
  }

  predicate FailsWith(r: seq<Byte>, kind: ErrorKind) {
    match kind
    case InvalidEscape => NoEscape(r) || NoSecond(r)
    case LoneSurrogate => Lone(r)
    case _ => false
  }

  // The first `o` bytes are well escaped, and stand for the characters.
  predicate Spells(raw: seq<Byte>, o: int, chars: seq<Scalar>) {
    0 <= o <= |raw| && WellEscaped(raw[..o]) && CodeUnits(raw[..o]) == Utf16All(chars)
  }

  // Decoding any well-formed text gives the characters that it spells out up to the first place where it
  // fails, and the error names that place.
  lemma {:induction false} DecodingFailsAt(raw: seq<Byte>, offset: nat)
    requires WellFormed(raw)
    ensures var d := DecodeAll(raw, offset);
      if d.error.None? then Spells(raw, |raw|, d.chars)
      else
        var o := d.error.value.offset - offset;
        Spells(raw, o, d.chars) && o < |raw| && FailsWith(raw[o..], d.error.value.kind)
    decreases |raw|
  {
    hide WellFormed, CharLen, Decode, Step, Spells, FailsWith;
    if raw == [] {
      NothingSpelled(raw);
    } else if Step(raw).Err? {
      StepFails(raw);
      NothingSpelled(raw);
      assert raw[0..] == raw;
    } else {
      var n := Step(raw).value.1;
      StepBoundary(raw);
      DecodingFailsAt(raw[n..], offset + n);
      var d := DecodeAll(raw[n..], offset + n);
      if d.error.None? {
        OneStepMore(raw, |raw|, d.chars);
      } else {
        var o := d.error.value.offset - offset;
        assert o >= n by { SpelledIsInside(raw[n..], o - n, d.chars); }
        assert raw[n..][o - n..] == raw[o..];
        PlaceIsBoundary(raw, o, d.error.value.kind);
        OneStepMore(raw, o, d.chars);
      }
    }
  }

  lemma SpelledIsInside(raw: seq<Byte>, o: int, chars: seq<Scalar>)
    requires Spells(raw, o, chars)
    ensures 0 <= o <= |raw|
  {
  }

  lemma NothingSpelled(raw: seq<Byte>)
    ensures Spells(raw, 0, [])
  {
    assert raw[..0] == [];
  }

  lemma StepFails(raw: seq<Byte>)
    requires raw != [] && WellFormed(raw) && Step(raw).Err?
    ensures FailsWith(raw, Step(raw).error)
  {
    hide CharLen, Decode, HexValue, WellFormed, AllHex;
    if |raw| >= 12 {
      assert raw[6..][2..6] == raw[8..12];
    }
  }

  lemma PlaceIsBoundary(raw: seq<Byte>, o: nat, kind: ErrorKind)
    requires o < |raw| && FailsWith(raw[o..], kind)
    ensures Boundary(raw, o)
  {
  }

  lemma SliceOfFront(raw: seq<Byte>, o: nat, a: nat, b: nat)
    requires a <= b <= o <= |raw|
    ensures raw[..o][a..b] == raw[a..b]
  {
  }

  lemma StepIsLocal(raw: seq<Byte>, o: nat)
    requires raw != [] && WellFormed(raw) && Step(raw).Ok? && Step(raw).value.1 <= o <= |raw| && WellFormed(raw[..o])
    ensures raw[..o] != [] && Step(raw[..o]) == Step(raw)
  {
    hide CharLen, HexValue, WellFormed;
    var front := raw[..o];
    assert front + raw[o..] == raw;
    FrontChar(front, raw[o..]);
    if raw[0] == BACKSLASH {
      if o >= 6 {
        SliceOfFront(raw, o, 2, 6);
      }
      if o >= 12 {
        SliceOfFront(raw, o, 8, 12);
      }
    }
  }

  lemma StepIsWellEscaped(raw: seq<Byte>)
    requires raw != [] && WellFormed(raw) && Step(raw).Ok? && WellEscaped(raw[Step(raw).value.1..])
    ensures WellEscaped(raw)
  {
    hide CharLen, Decode, HexValue;
    if raw[0] == BACKSLASH && Step(raw).value.1 == 12 {
      assert raw[6..][6..] == raw[12..] && raw[6..][2..6] == raw[8..12];
      assert WellEscaped(raw[6..]);
    }
  }

  // A step looks only at the bytes that it consumes, and those are escape sequences or one character.
  lemma OneStepMore(raw: seq<Byte>, o: nat, chars: seq<Scalar>)
    requires raw != [] && WellFormed(raw) && Step(raw).Ok? && Step(raw).value.1 <= o <= |raw| && Boundary(raw, o)
    requires Spells(raw[Step(raw).value.1..], o - Step(raw).value.1, chars)
    ensures Spells(raw, o, [Step(raw).value.0] + chars)
  {
    hide WellFormed, Boundary, WellEscaped, Step, CodeUnits, Utf16, Utf16All;
    var (c, n) := Step(raw).value;
    var front := raw[..o];
    assert front[n..] == raw[n..][..o - n];
    SplitAt(raw, o);
    StepIsLocal(raw, o);
    StepIsWellEscaped(front);
    StepUnits(front);
    OneCharMore(c, chars, []);
    assert Utf16All([c] + chars) + [] == Utf16All([c] + chars) && Utf16All(chars) + [] == Utf16All(chars);
  }

  lemma NoCharsYet(units: seq<int>)
    ensures Utf16All([]) + units == units
  {
  }

  lemma OneCharMore(c: Scalar, chars: seq<Scalar>, units: seq<int>)
    ensures Utf16All([c] + chars) + units == Utf16(c) + (Utf16All(chars) + units)
  {
    assert ([c] + chars)[1..] == chars;
  }

  lemma {:induction false} EmptyPaired()
    ensures WellEscaped([]) && Paired([])
  {
    assert Utf16All([]) == CodeUnits([]);
  }

  lemma {:induction false} FirstCharPaired(raw: seq<Byte>, c: Scalar, rest: seq<Byte>)
    requires WellEscaped(raw) && WellEscaped(rest) && CodeUnits(raw) == Utf16(c) + CodeUnits(rest)
    ensures Paired(raw) <==> Paired(rest)
  {
    hide CodeUnits, WellEscaped, Utf16;
    if Paired(raw) {
      var cs: seq<Scalar> :| Utf16All(cs) == CodeUnits(raw);
      Utf16Prefix(c, CodeUnits(rest), cs);
    }
    if Paired(rest) {
      var cs: seq<Scalar> :| Utf16All(cs) == CodeUnits(rest);
      assert ([c] + cs)[1..] == cs;
      assert Utf16All([c] + cs) == CodeUnits(raw);
    }
  }

  // A successful step consumes whole pieces and yields the character of their code units.
  lemma {:induction false} StepUnits(raw: seq<Byte>)
    requires raw != [] && WellFormed(raw) && WellEscaped(raw) && Step(raw).Ok?
    ensures var (c, n) := Step(raw).value;
      WellEscaped(raw[n..]) && CodeUnits(raw) == Utf16(c) + CodeUnits(raw[n..])
  {
    hide CharLen, Decode, HexValue, HexAt;
    if raw[0] == BACKSLASH && raw[1] == 0x75 && Step(raw).value.1 == 12 {
      PairUnits(raw);
    }
  }

  lemma {:induction false} PairUnits(raw: seq<Byte>)
    requires raw != [] && WellEscaped(raw) && raw[0] == BACKSLASH && raw[1] == 0x75
    requires UnicodeStep(raw).Ok? && UnicodeStep(raw).value.1 == 12
    ensures var (c, n) := UnicodeStep(raw).value;
      WellEscaped(raw[n..]) && CodeUnits(raw) == Utf16(c) + CodeUnits(raw[n..])
  {
    hide CharLen, Decode, HexValue;
    var second := raw[6..];
    assert second[0] == BACKSLASH && second[1] == 0x75;
    assert second[2..6] == raw[8..12];
    assert second[6..] == raw[12..];
    CombineIsPair(Hex4(raw, 2), Hex4(raw, 8));
    assert CodeUnits(raw) == [Hex4(raw, 2)] + ([Hex4(raw, 8)] + CodeUnits(raw[12..]));
  }

  // A step that fails on a well-escaped body stands before an unpaired surrogate.
  lemma {:induction false} LoneIsUnpaired(raw: seq<Byte>)
    requires raw != [] && WellFormed(raw) && WellEscaped(raw) && Step(raw).Err?
    ensures Step(raw).error == LoneSurrogate && !Paired(raw) && StartsUnpaired(CodeUnits(raw))
  {
    hide CharLen, Decode, HexValue;
    var u := Hex4(raw, 2);
    var second := raw[6..];
    assert CodeUnits(raw) == [u] + CodeUnits(second);
    if High(u) && second != [] {
      FirstUnitLow(second);
      if SecondEscape(raw) {
        assert second[2..6] == raw[8..12];
      }
    }
    assert CodeUnits(raw)[0] == u;
    if second == [] {
      assert CodeUnits(second) == [];
    } else {
      assert CodeUnits(raw)[1] == CodeUnits(second)[0];
    }
    forall cs: seq<Scalar> | Utf16All(cs) == CodeUnits(raw)
      ensures false
    {
      FirstOfUtf16All(cs);
    }
  }

  lemma {:induction false} FirstOfUtf16All(cs: seq<Scalar>)
    requires Utf16All(cs) != []
    ensures !Low(Utf16All(cs)[0])
    ensures High(Utf16All(cs)[0]) ==> |Utf16All(cs)| > 1 && Low(Utf16All(cs)[1])
  {
  }

  // Only an escape sequence can contribute a low surrogate first.
  lemma {:induction false} FirstUnitLow(raw: seq<Byte>)
    requires raw != [] && WellEscaped(raw)
    ensures Low(CodeUnits(raw)[0]) ==>
      |raw| >= 6 && raw[0] == BACKSLASH && raw[1] == 0x75 && HexAt(raw, 2) && Low(Hex4(raw, 2))
  {
    hide CharLen, Decode, HexValue, HexAt;
    assert CodeUnits(raw)[0] == PieceUnits(raw)[0];
  }

  // A decoded text is never longer than its body.
  lemma {:induction false} DecodingNeverGrows(raw: seq<Byte>, offset: nat)
    requires WellFormed(raw)
    ensures |EncodeAll(DecodeAll(raw, offset).chars)| <= |raw|
    decreases |raw|
  {
    hide CharLen, Decode, Step, Encode;
    if raw != [] && Step(raw).Ok? {
      var (c, n) := Step(raw).value;
      StepBoundary(raw);
      StepNeverGrows(raw);
      DecodingNeverGrows(raw[n..], offset + n);
      assert DecodeAll(raw, offset).chars[1..] == DecodeAll(raw[n..], offset + n).chars;
    }
  }

  lemma {:induction false} StepNeverGrows(raw: seq<Byte>)
    requires raw != [] && WellFormed(raw) && Step(raw).Ok?
    ensures |Encode(Step(raw).value.0)| <= Step(raw).value.1
  {
    hide HexValue, HexAt;
    if raw[0] != BACKSLASH {
      EncodeDecode(raw);
    }
  }

  // What `unescape_into` returns for a buffer of `capacity` bytes of which `written` are used.
  function Fill(raw: seq<Byte>, offset: nat, written: nat, capacity: nat): Result<seq<Byte>, Error>
    requires WellFormed(raw)
    decreases |raw|
  {
    if raw == [] then Ok([])
    else
      match Step(raw)
      case Err(kind) => Err(Error(kind, offset))
      case Ok((c, n)) =>
        StepBoundary(raw);
        var w := written + |Encode(c)|;
        if w > capacity then Err(Error(BufferTooSmall, written))
        else
          match Fill(raw[n..], offset + n, w, capacity)
          case Err(e) => Err(e)
          case Ok(t) => Ok(Encode(c) + t)
  }

  // The first `n` characters fit into the room, and the next one does not.
  ghost predicate FitsUpTo(chars: seq<Scalar>, room: nat, n: nat) {
    n < |chars| && |EncodeAll(chars[..n])| <= room < |EncodeAll(chars[..n + 1])|
  }

  ghost predicate TooSmallAt(chars: seq<Scalar>, written: nat, capacity: nat, r: Result<seq<Byte>, Error>, n: nat) {
    && written <= capacity && FitsUpTo(chars, capacity - written, n)
    && r == Err(Error(BufferTooSmall, written + |EncodeAll(chars[..n])|))
  }

  // A buffer of any size: if the decoded text fits, the result is that text or the one error that
  // decoding ends with; if not, it is `BufferTooSmall` behind the last character that fits.
  ghost predicate Filled(d: Decoded, written: nat, capacity: nat, r: Result<seq<Byte>, Error>) {
    if |EncodeAll(d.chars)| <= capacity - written then
      r == if d.error.None? then Ok(EncodeAll(d.chars)) else Err(d.error.value)
    else exists n: nat :: TooSmallAt(d.chars, written, capacity, r, n)
  }

  lemma {:induction false} BufferLimit(raw: seq<Byte>, offset: nat, written: nat, capacity: nat)
    requires WellFormed(raw) && written <= capacity
    ensures Filled(DecodeAll(raw, offset), written, capacity, Fill(raw, offset, written, capacity))
    decreases |raw|
  {
    hide WellFormed, CharLen, Decode, Step, Encode, EncodeAll, TooSmallAt;
    NothingFills();
    if raw != [] && Step(raw).Ok? {
      var (c, n) := Step(raw).value;
      StepBoundary(raw);
      var rest := DecodeAll(raw[n..], offset + n);
      if written + |Encode(c)| > capacity {
        NoneFits([c] + rest.chars, written, capacity);
        EncodeAllCons(c, rest.chars);
      } else {
        BufferLimit(raw[n..], offset + n, written + |Encode(c)|, capacity);
        MoreFits(c, rest, written, capacity, Fill(raw[n..], offset + n, written + |Encode(c)|, capacity));
      }
    }
  }

  lemma NothingFills()
    ensures EncodeAll([]) == []
  {
  }

  lemma MoreFits(c: Scalar, rest: Decoded, written: nat, capacity: nat, q: Result<seq<Byte>, Error>)
    requires written + |Encode(c)| <= capacity && Filled(rest, written + |Encode(c)|, capacity, q)
    ensures Filled(Decoded([c] + rest.chars, rest.error), written, capacity,
                   if q.Ok? then Ok(Encode(c) + q.value) else q)
  {
    hide Encode, EncodeAll, FitsUpTo;
    var w := written + |Encode(c)|;
    EncodeAllCons(c, rest.chars);
    if |EncodeAll(rest.chars)| > capacity - w {
      var k: nat :| TooSmallAt(rest.chars, w, capacity, q, k);
      FitsOneMore(c, rest.chars, capacity - written, k);
      assert TooSmallAt([c] + rest.chars, written, capacity, q, k + 1);
    }
  }

  lemma NoneFits(chars: seq<Scalar>, written: nat, capacity: nat)
    requires chars != [] && written <= capacity < written + |Encode(chars[0])|
    ensures TooSmallAt(chars, written, capacity, Err(Error(BufferTooSmall, written)), 0)
  {
    hide Encode;
    assert chars[..1] == [chars[0]] + [] && chars[..0] == [];
    EncodeAllCons(chars[0], []);
  }

  lemma FitsOneMore(c: Scalar, chars: seq<Scalar>, room: nat, k: nat)
    requires |Encode(c)| <= room && FitsUpTo(chars, room - |Encode(c)|, k)
    ensures FitsUpTo([c] + chars, room, k + 1)
    ensures |EncodeAll(([c] + chars)[..k + 1])| == |Encode(c)| + |EncodeAll(chars[..k])|
  {
    hide Encode;
    assert ([c] + chars)[..k + 1] == [c] + chars[..k] && ([c] + chars)[..k + 2] == [c] + chars[..k + 1];
    EncodeAllCons(c, chars[..k]);
    EncodeAllCons(c, chars[..k + 1]);
  }

  // A buffer of the raw length always suffices.
  lemma RawLengthSuffices(raw: seq<Byte>, offset: nat, written: nat, capacity: nat)
    requires WellFormed(raw) && written + |raw| <= capacity
    ensures var d := DecodeAll(raw, offset);
      Fill(raw, offset, written, capacity) == if d.error.None? then Ok(EncodeAll(d.chars)) else Err(d.error.value)
  {
    hide Fill, DecodeAll;
    BufferLimit(raw, offset, written, capacity);
    DecodingNeverGrows(raw, offset);
  }

  // Every well-formed string body of the grammar decodes to its UTF-16 meaning in a buffer of its
  // own length, or fails with `LoneSurrogate` exactly when a surrogate is unpaired.
  lemma ReportedBodyDecodes(us: Body, capacity: nat)
    requires ValidBody(us) && WellFormed(BodyText(us)) && |BodyText(us)| <= capacity
    ensures WellEscaped(BodyText(us))
    ensures var raw := BodyText(us);
      var r := Fill(raw, 0, 0, capacity);
      && (r.Ok? <==> Paired(raw))
      && (r.Ok? ==> WellFormed(r.value) && Utf16All(Chars(r.value)) == CodeUnits(raw))
      && (r.Err? ==> r.error.kind == LoneSurrogate)
  {
    var raw := BodyText(us);
    BodyIsWellEscaped(us);
    DecodingFollowsUtf16(raw, 0);
    RawLengthSuffices(raw, 0, 0, capacity);
    CharsOfEncodeAll(DecodeAll(raw, 0).chars);
  }
}

// The iterator object and the two operations that run it.
module EscapeString {
  import opened Bytes
  import opened Utf8
  import opened JsonError
  import opened JsonGrammar
  import Spec = EscapeSpec
  import D = EscapeDecode

  // `char::from_u32`.
  function FromU32(u: int): Option<Scalar> {
    if 0 <= u <= 0x10FFFF && !(0xD800 <= u <= 0xDFFF) then Some(u) else None
  }

  class Unescape {
    var rest: seq<Byte>
    var offset: nat

    ghost predicate Valid()
      reads this
    {
      WellFormed(rest)
    }

    constructor (raw: seq<Byte>)
      requires WellFormed(raw)
      ensures Valid() && rest == raw && offset == 0
    {
      rest := raw;
      offset := 0;
    }

    // The next character or the one error; after an error the iterator is empty.
    method Next() returns (r: Option<Result<Scalar, Error>>)
      requires Valid()
      modifies this
      ensures Valid()
      ensures old(rest) == [] ==> r == None && rest == [] && offset == old(offset)
      ensures old(rest) != [] ==>
        match D.Step(old(rest))
        case Err(kind) => r == Some(Err(Error(kind, old(offset)))) && rest == []
        case Ok((c, n)) => r == Some(Ok(c)) && rest == old(rest)[n..] && offset == old(offset) + n
    {
      r := Step();
      if r.Some? && r.value.Err? {
        rest := [];
      }
    }

    // At a character boundary the checked slice exists, so the fallback is never taken.
    method Advance(count: nat)
      requires Valid() && count <= |rest| && Boundary(rest, count)
      modifies this
      ensures Valid() && rest == old(rest)[count..] && offset == old(offset) + count
    {
      hide CharLen, WellFormed;
      SplitAt(rest, count);
      assert rest[count..|rest|] == rest[count..];
      var tail := Get(rest, count, |rest|);
      rest := if tail.Some? then tail.value else [];
      offset := offset + count;
    }

    // A body that is too short fails in the same way as a byte that is not a digit.
    method Hex4(at: nat) returns (r: Result<int, Error>)
      ensures r == if Spec.HexAt(rest, at) then Ok(Spec.Hex4(rest, at)) else Err(Error(InvalidEscape, offset))
    {
      if at + 4 > |rest| {
        return Err(Error(InvalidEscape, offset));
      }
      var digits := rest[at..at + 4];
      var value := 0;
      for i := 0 to 4
        invariant Spec.AllHex(digits[..i]) && value == Spec.HexValue(digits[..i])
      {
        var digit := digits[i] as int;
        var nibble;
        if 0x30 <= digit <= 0x39 {
          nibble := digit - 0x30;
        } else if 0x61 <= digit <= 0x66 {
          nibble := digit - 0x61 + 10;
        } else if 0x41 <= digit <= 0x46 {
          nibble := digit - 0x41 + 10;
        } else {
          assert !HexDigit(digits[i]);
          return Err(Error(InvalidEscape, offset));
        }
        assert digits[..i + 1][..i] == digits[..i];
        value := value * 16 + nibble;
      }
      assert digits[..4] == digits;
      return Ok(value);
    }

    // One `UnicodeStep`. Neither conversion to a character can fail, since lone surrogates have been
    // refused before.
    method DecodeUnicodeEscape() returns (r: Result<Scalar, Error>)
      requires Valid() && |rest| >= 2 && rest[0] == BACKSLASH && rest[1] == 0x75
      modifies this
      ensures Valid()
      ensures match D.UnicodeStep(old(rest))
        case Err(kind) => r == Err(Error(kind, old(offset))) && rest == old(rest) && offset == old(offset)
        case Ok((c, n)) => r == Ok(c) && rest == old(rest)[n..] && offset == old(offset) + n
    {
      hide Spec.HexValue, WellFormed;
      if D.UnicodeStep(rest).Ok? {
        D.StepBoundary(rest);
      }
      var first := Hex4(2);
      if first.Err? {
        return Err(first.error);
      }
      var leading := first.value;
      if 0xD800 <= leading < 0xDC00 {
        if |rest| < 8 || rest[6..8] != [BACKSLASH, 0x75] {
          return Err(Error(LoneSurrogate, offset));
        }
        var second := Hex4(8);
        if second.Err? {
          return Err(second.error);
        }
        var trailing := second.value;
        if !(0xDC00 <= trailing < 0xE000) {
          return Err(Error(LoneSurrogate, offset));
        }
        var character := FromU32(0x10000 + (leading - 0xD800) * 1024 + (trailing - 0xDC00));
        if character.None? {
          assert false;
        }
        Advance(12);
        return Ok(character.value);
      }
      if 0xDC00 <= leading < 0xE000 {
        return Err(Error(LoneSurrogate, offset));
      }
      var character := FromU32(leading);
      if character.None? {
        assert false;
      }
      Advance(6);
      return Ok(character.value);
    }

    // On failure the rest is kept: ending the iteration is left to `Next`.
    method Step() returns (r: Option<Result<Scalar, Error>>)
      requires Valid()
      modifies this
      ensures Valid()
      ensures old(rest) == [] ==> r == None && rest == [] && offset == old(offset)
      ensures old(rest) != [] ==>
        match D.Step(old(rest))
        case Err(kind) => r == Some(Err(Error(kind, old(offset)))) && rest == old(rest) && offset == old(offset)
        case Ok((c, n)) => r == Some(Ok(c)) && rest == old(rest)[n..] && offset == old(offset) + n
    {
      hide D.UnicodeStep, CharLen, Decode;
      if rest == [] {
        return None;
      }
      if D.Step(rest).Ok? {
        D.StepBoundary(rest);
      }
      if rest[0] != BACKSLASH {
        var character := Decode(rest);
        Advance(CharLen(rest));
        return Some(Ok(character));
      }
      if |rest| < 2 {
        return Some(Err(Error(InvalidEscape, offset)));
      }
      var escape := rest[1];
      if escape == 0x75 {
        var decoded := DecodeUnicodeEscape();
        return Some(decoded);
      }
      if !SimpleEscape(escape) {
        return Some(Err(Error(InvalidEscape, offset)));
      }
      Advance(2);
      return Some(Ok(Spec.SimpleValue(escape)));
    }
  }

  // The characters are written one behind the other, so that what is written is always UTF-8.
  method UnescapeInto(raw: seq<Byte>, buffer: array<Byte>) returns (r: Result<seq<Byte>, Error>)
    requires WellFormed(raw)
    modifies buffer
    ensures r == D.Fill(raw, 0, 0, buffer.Length)
    ensures r.Ok? ==> |r.value| <= buffer.Length && buffer[..|r.value|] == r.value && WellFormed(r.value)
  {
    hide CharLen, Decode, D.Step, Encode;
    var it := new Unescape(raw);
    var written := 0;
    assert buffer[..0] == [];
    AfterTwo([], [], D.Fill(raw, 0, 0, buffer.Length));
    while true
      invariant it.Valid() && written <= buffer.Length && fresh(it)
      invariant WellFormed(buffer[..written])
      invariant D.Fill(raw, 0, 0, buffer.Length)
             == After(buffer[..written], D.Fill(it.rest, it.offset, written, buffer.Length))
      decreases |it.rest|
    {
      ghost var rest := it.rest;
      var decoded := it.Next();
      if decoded.None? {
        assert buffer[..written] + [] == buffer[..written];
        break;
      }
      if decoded.value.Err? {
        return Err(decoded.value.error);
      }
      var bytes := Encode(decoded.value.value);
      var end := written + |bytes|;
      if end > buffer.Length {
        return Err(Error(BufferTooSmall, written));
      }
      ghost var before := buffer[..written];
      CopyInto(buffer, written, bytes);
      assert buffer[..end] == before + bytes;
      EncodeIsWellFormed(decoded.value.value);
      Concat(before, bytes);
      written := end;
      AfterTwo(before, bytes, D.Fill(it.rest, it.offset, written, buffer.Length));
    }
    return Ok(buffer[..written]);
  }

  // A result whose text follows the text written before.
  ghost function After(written: seq<Byte>, r: Result<seq<Byte>, Error>): Result<seq<Byte>, Error> {
    match r
    case Err(e) => Err(e)
    case Ok(t) => Ok(written + t)
  }

  lemma AfterTwo(a: seq<Byte>, b: seq<Byte>, r: Result<seq<Byte>, Error>)
    ensures After([], r) == r && After(a, After(b, r)) == After(a + b, r)
  {
    if r.Ok? {
      assert [] + r.value == r.value;
      assert a + (b + r.value) == a + b + r.value;
    }
  }

  // The loop needs no buffer. A decoding error makes the two unequal.
  method EqUnescaped(raw: seq<Byte>, other: seq<Byte>) returns (equal: bool)
    requires WellFormed(raw) && WellFormed(other)
    ensures equal <==> D.DecodeAll(raw, 0) == D.Decoded(Chars(other), None)
  {
    hide CharLen, Decode, D.Step;
    var it := new Unescape(raw);
    var expected := Chars(other);
    while true
      invariant it.Valid() && fresh(it)
      invariant D.DecodeAll(raw, 0) == D.Decoded(Chars(other), None)
           <==> D.DecodeAll(it.rest, it.offset) == D.Decoded(expected, None)
      decreases |it.rest|
    {
      ghost var rest, offset := it.rest, it.offset;
      var decoded := it.Next();
      if decoded.None? {
        break;
      }
      if decoded.value.Err? || expected == [] || decoded.value.value != expected[0] {
        return false;
      }
      assert D.DecodeAll(rest, offset).chars == [expected[0]] + D.DecodeAll(it.rest, it.offset).chars;
      assert expected == [expected[0]] + expected[1..];
      expected := expected[1..];
    }
    return expected == [];
  }
}
