// UTF-8 as sections 3 and 4 of RFC 3629 define it.
module Utf8 {
  import opened Bytes

  // A Unicode scalar value: the type `char` of the source.
  type Scalar = c: int | 0 <= c <= 0x10FFFF && !(0xD800 <= c <= 0xDFFF)

  predicate Continuation(b: Byte) {
    0x80 <= b <= 0xBF
  }

  // The length of the well-formed character at the front of `s`, or 0 if there is none
  // (the syntax UTF8-1 to UTF8-4 of section 4 of RFC 3629).
  function CharLen(s: seq<Byte>): (n: nat)
    ensures n <= |s| && n <= 4
  {
    if |s| == 0 then 0
    else if s[0] <= 0x7F then 1
    else if |s| >= 2 && 0xC2 <= s[0] <= 0xDF && Continuation(s[1]) then 2
    else if |s| >= 3 && Second3(s[0], s[1]) && Continuation(s[2]) then 3
    else if |s| >= 4 && Second4(s[0], s[1]) && Continuation(s[2]) && Continuation(s[3]) then 4
    else 0
  }

  // The first two bytes of a three-byte character.
  predicate Second3(a: Byte, b: Byte) {
    || (a == 0xE0 && 0xA0 <= b <= 0xBF)
    || (0xE1 <= a <= 0xEC && Continuation(b))
    || (a == 0xED && 0x80 <= b <= 0x9F)
    || (0xEE <= a <= 0xEF && Continuation(b))
  }

  // The first two bytes of a four-byte character.
  predicate Second4(a: Byte, b: Byte) {
    || (a == 0xF0 && 0x90 <= b <= 0xBF)
    || (0xF1 <= a <= 0xF3 && Continuation(b))
    || (a == 0xF4 && 0x80 <= b <= 0x8F)
  }

  predicate WellFormed(s: seq<Byte>)
    decreases |s|
  {
    s == [] || (CharLen(s) > 0 && WellFormed(s[CharLen(s)..]))
  }

  // `str::is_char_boundary`.
  predicate Boundary(s: seq<Byte>, i: nat) {
    i == 0 || i == |s| || (i < |s| && !Continuation(s[i]))
  }

  // `str::get(a..b)`: the slice, unless an end is outside or inside a character.
  function Get(s: seq<Byte>, a: nat, b: nat): (r: Option<seq<Byte>>)
    ensures r.Some? <==> a <= b <= |s| && Boundary(s, a) && Boundary(s, b)
  {
    if a <= b <= |s| && Boundary(s, a) && Boundary(s, b) then Some(s[a..b]) else None
  }

  // Every byte of a character but its first is a continuation byte.
  lemma CharShape(s: seq<Byte>)
    requires CharLen(s) > 0
    ensures !Continuation(s[0])
    ensures forall i :: 1 <= i < CharLen(s) ==> Continuation(s[i])
    ensures CharLen(s) > 1 ==> s[0] > 0x7F
  {
  }

  // Well-formed text splits at every character boundary into well-formed parts.
  lemma {:induction false} SplitAt(s: seq<Byte>, i: nat)
    requires WellFormed(s) && i <= |s| && Boundary(s, i)
    ensures WellFormed(s[..i]) && WellFormed(s[i..])
    decreases |s|
  {
    hide CharLen;
    if i == 0 {
      assert s[..0] == [] && s[0..] == s;
    } else {
      CharShape(s);
      var n := CharLen(s);
      assert n <= i;
      var t := s[n..];
      assert i < |s| ==> t[i - n] == s[i];
      SplitAt(t, i - n);
      assert t[i - n..] == s[i..];
      FrontChar(s[..i], s[i..]);
      assert s[..i] + s[i..] == s;
      assert s[..i][n..] == t[..i - n];
    }
  }

  // A character is recognised by its own bytes alone.
  lemma FrontChar(s: seq<Byte>, rest: seq<Byte>)
    ensures CharLen(s) > 0 ==> CharLen(s + rest) == CharLen(s)
    ensures 0 < CharLen(s + rest) <= |s| ==> CharLen(s) == CharLen(s + rest)
  {
  }

  lemma {:induction false} Concat(s: seq<Byte>, t: seq<Byte>)
    requires WellFormed(s) && WellFormed(t)
    ensures WellFormed(s + t)
    decreases |s|
  {
    hide CharLen;
    if s == [] {
      assert s + t == t;
    } else {
      var n := CharLen(s);
      FrontChar(s, t);
      Concat(s[n..], t);
      assert (s + t)[n..] == s[n..] + t;
    }
  }

  // The position after an ASCII byte of well-formed text is a character boundary.
  lemma {:induction false} BoundaryAfterAscii(s: seq<Byte>, i: nat)
    requires WellFormed(s) && i < |s| && s[i] <= 0x7F
    ensures Boundary(s, i + 1) && Boundary(s, i)
    decreases |s|
  {
    hide CharLen;
    var n := CharLen(s);
    CharShape(s);
    if i == 0 {
      if 1 < |s| {
        assert n == 1;
        CharShape(s[1..]);
      }
    } else {
      assert n <= i;
      BoundaryAfterAscii(s[n..], i - n);
      if i + 1 < |s| {
        assert s[n..][i - n + 1] == s[i + 1];
      }
    }
  }

  // `char::encode_utf8`.
  function Encode(c: Scalar): (s: seq<Byte>)
    ensures 1 <= |s| <= 4
  {
    if c <= 0x7F then [c]
    else if c <= 0x7FF then [0xC0 + c / 64, 0x80 + c % 64]
    else if c <= 0xFFFF then [0xE0 + c / 4096, 0x80 + c / 64 % 64, 0x80 + c % 64]
    else [0xF0 + c / 262144, 0x80 + c / 4096 % 64, 0x80 + c / 64 % 64, 0x80 + c % 64]
  }

  // The first character of well-formed text.
  function Decode(s: seq<Byte>): Scalar
    requires CharLen(s) > 0
  {
    match CharLen(s)
    case 1 => s[0]
    case 2 => (s[0] as int - 0xC0) * 64 + (s[1] - 0x80)
    case 3 => (s[0] as int - 0xE0) * 4096 + (s[1] as int - 0x80) * 64 + (s[2] - 0x80)
    case _ => (s[0] as int - 0xF0) * 262144 + (s[1] as int - 0x80) * 4096 + (s[2] as int - 0x80) * 64 + (s[3] - 0x80)
  }

  // Encoding and then decoding a character gives it back, whatever follows it.
  lemma DecodeEncode(c: Scalar, rest: seq<Byte>)
    ensures CharLen(Encode(c) + rest) == |Encode(c)|
    ensures Decode(Encode(c) + rest) == c
  {
    if 0x7FF < c <= 0xFFFF {
      assert c / 64 / 64 == c / 4096;
    } else if c > 0xFFFF {
      assert c / 64 / 64 == c / 4096;
      assert c / 4096 / 64 == c / 262144;
    }
  }

  lemma Digits64(q: int, r: int)
    requires 0 <= r < 64
    ensures (q * 64 + r) / 64 == q && (q * 64 + r) % 64 == r
  {
  }

  // Decoding and then encoding the first character gives its bytes back.
  lemma EncodeDecode(s: seq<Byte>)
    requires CharLen(s) > 0
    ensures Encode(Decode(s)) == s[..CharLen(s)]
  {
    var n := CharLen(s);
    if n == 2 {
      Digits64(s[0] as int - 0xC0, s[1] as int - 0x80);
    } else if n == 3 {
      EncodeDecode3(s);
    } else if n == 4 {
      EncodeDecode4(s);
    }
  }

  lemma EncodeDecode3(s: seq<Byte>)
    requires CharLen(s) == 3
    ensures Encode(Decode(s)) == s[..3]
  {
    var a, b, d := s[0] as int - 0xE0, s[1] as int - 0x80, s[2] as int - 0x80;
    Digits64(a * 64 + b, d);
    Digits64(a, b);
    assert Decode(s) / 64 / 64 == Decode(s) / 4096;
  }

  lemma EncodeDecode4(s: seq<Byte>)
    requires CharLen(s) == 4
    ensures Encode(Decode(s)) == s[..4]
  {
    var a, b, d, e := s[0] as int - 0xF0, s[1] as int - 0x80, s[2] as int - 0x80, s[3] as int - 0x80;
    Digits64((a * 64 + b) * 64 + d, e);
    Digits64(a * 64 + b, d);
    Digits64(a, b);
    assert Decode(s) / 64 / 64 == Decode(s) / 4096;
    assert Decode(s) / 4096 / 64 == Decode(s) / 262144;
  }

  // The characters of well-formed text (`str::chars`).
  function Chars(s: seq<Byte>): seq<Scalar>
    requires WellFormed(s)
    decreases |s|
  {
    if s == [] then [] else [Decode(s)] + Chars(s[CharLen(s)..])
  }

  function EncodeAll(cs: seq<Scalar>): seq<Byte> {
    if cs == [] then [] else Encode(cs[0]) + EncodeAll(cs[1..])
  }

  // `Chars` and `EncodeAll` are inverse to each other.
  lemma {:induction false} CharsOfEncodeAll(cs: seq<Scalar>)
    ensures WellFormed(EncodeAll(cs)) && Chars(EncodeAll(cs)) == cs
  {
    hide CharLen, Decode, Encode;
    if cs != [] {
      var rest := EncodeAll(cs[1..]);
      CharsOfEncodeAll(cs[1..]);
      DecodeEncode(cs[0], rest);
      assert (Encode(cs[0]) + rest)[|Encode(cs[0])|..] == rest;
    }
  }

  lemma {:induction false} EncodeAllOfChars(s: seq<Byte>)
    requires WellFormed(s)
    ensures EncodeAll(Chars(s)) == s
    decreases |s|
  {
    hide CharLen, Decode, Encode, EncodeAll;
    EncodeAllCons(0, []);
    if s != [] {
      var n := CharLen(s);
      EncodeDecode(s);
      EncodeAllOfChars(s[n..]);
      EncodeAllCons(Decode(s), Chars(s[n..]));
      assert s[..n] + s[n..] == s;
    }
  }

  lemma EncodeAllCons(c: Scalar, cs: seq<Scalar>)
    ensures EncodeAll([]) == [] && EncodeAll([c] + cs) == Encode(c) + EncodeAll(cs)
  {
    hide Encode;
    assert ([c] + cs)[1..] == cs;
  }

  lemma {:induction false} EncodeAllAppend(a: seq<Scalar>, b: seq<Scalar>)
    ensures EncodeAll(a + b) == EncodeAll(a) + EncodeAll(b)
  {
    if a == [] {
      assert a + b == b;
    } else {
      assert (a + b)[1..] == a[1..] + b;
      EncodeAllAppend(a[1..], b);
    }
  }

  lemma EncodeIsWellFormed(c: Scalar)
    ensures WellFormed(Encode(c))
  {
    assert EncodeAll([c]) == Encode(c) + EncodeAll([]) == Encode(c);
    CharsOfEncodeAll([c]);
  }

  lemma {:induction false} AsciiIsWellFormed(b: seq<Byte>)
    requires forall i :: 0 <= i < |b| ==> b[i] <= 0x7F
    ensures WellFormed(b)
  {
    if b != [] {
      AsciiIsWellFormed(b[1..]);
    }
  }
}
