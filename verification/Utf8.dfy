/** UTF-8: the check that `std::str::from_utf8` makes, against the encoding of characters. */
module Utf8 {
  type Byte = b: int | 0 <= b < 256

  predicate Continuation(b: Byte) { 0x80 <= b <= 0xBF }

  /** Length of the well-formed sequence at the start of s, 0 if there is none (Unicode 15, table 3-7). */
  function Utf8Length(s: seq<Byte>): (n: nat)
    ensures n <= |s| && n <= 4
  {
    if s == [] then 0
    else if s[0] <= 0x7F then 1
    else if |s| >= 2 && 0xC2 <= s[0] <= 0xDF && Continuation(s[1]) then 2
    else if |s| >= 3 && 0xE0 <= s[0] <= 0xEF && Continuation(s[1]) && Continuation(s[2])
            && (s[0] == 0xE0 ==> s[1] >= 0xA0) && (s[0] == 0xED ==> s[1] <= 0x9F) then 3
    else if |s| >= 4 && 0xF0 <= s[0] <= 0xF4 && Continuation(s[1]) && Continuation(s[2]) && Continuation(s[3])
            && (s[0] == 0xF0 ==> s[1] >= 0x90) && (s[0] == 0xF4 ==> s[1] <= 0x8F) then 4
    else 0
  }

  predicate ValidUtf8(s: seq<Byte>)
    decreases |s|
  {
    s == [] || (Utf8Length(s) > 0 && ValidUtf8(s[Utf8Length(s)..]))
  }

  /** A Unicode scalar value: no surrogate. */
  type Scalar = c: int | 0 <= c <= 0x10FFFF && !(0xD800 <= c <= 0xDFFF)

  /** The bytes of a character (section 3 of RFC 3629): its bits, six to a continuation byte, in the
      shortest form that holds them. */
  function EncodeChar(c: Scalar): seq<Byte> {
    if c < 0x80 then [c]
    else if c < 0x800 then [0xC0 + c / 64, 0x80 + c % 64]
    else if c < 0x10000 then [0xE0 + c / 4096, 0x80 + c / 64 % 64, 0x80 + c % 64]
    else [0xF0 + c / 262144, 0x80 + c / 4096 % 64, 0x80 + c / 64 % 64, 0x80 + c % 64]
  }

  function EncodeText(text: seq<Scalar>): seq<Byte> {
    if text == [] then [] else EncodeChar(text[0]) + EncodeText(text[1..])
  }

  lemma EncodedCharIsWellFormed(c: Scalar, rest: seq<Byte>)
    ensures Utf8Length(EncodeChar(c) + rest) == |EncodeChar(c)| > 0
  {
  }

  /** The bits a byte holds beside its marker. */
  function Bits(b: Byte, marker: nat): (n: nat)
    requires marker <= b
    ensures n == b - marker
  {
    b - marker
  }

  /** One more byte's bits. */
  function Shift(high: nat, low: nat): (n: nat)
    requires low < 64
    ensures n / 64 == high && n % 64 == low && n == high * 64 + low
  {
    high * 64 + low
  }

  lemma ThreeGroups(a: nat, b: nat, c: nat)
    requires b < 64 && c < 64
    ensures var n := Shift(Shift(a, b), c); n / 4096 == a && n / 64 % 64 == b && n % 64 == c
  {
    var low := b * 64 + c;
    assert Shift(Shift(a, b), c) == a * 4096 + low && 0 <= low < 4096;
  }

  lemma FourGroups(a: nat, b: nat, c: nat, d: nat)
    requires b < 64 && c < 64 && d < 64
    ensures var n := Shift(Shift(Shift(a, b), c), d);
      n / 262144 == a && n / 4096 % 64 == b && n / 64 % 64 == c && n % 64 == d
  {
    ThreeGroups(Shift(a, b), c, d);
    var low := (b * 64 + c) * 64 + d;
    assert Shift(Shift(Shift(a, b), c), d) == a * 262144 + low && 0 <= low < 262144;
  }

  function DecodeTwo(s: seq<Byte>): (c: Scalar)
    requires Utf8Length(s) == 2
    ensures EncodeChar(c) == s[..2]
  {
    Shift(Bits(s[0], 0xC0), Bits(s[1], 0x80))
  }

  function DecodeThree(s: seq<Byte>): (c: Scalar)
    requires Utf8Length(s) == 3
    ensures EncodeChar(c) == s[..3]
  {
    ThreeGroups(Bits(s[0], 0xE0), Bits(s[1], 0x80), Bits(s[2], 0x80));
    Shift(Shift(Bits(s[0], 0xE0), Bits(s[1], 0x80)), Bits(s[2], 0x80))
  }

  function DecodeFour(s: seq<Byte>): (c: Scalar)
    requires Utf8Length(s) == 4
    ensures EncodeChar(c) == s[..4]
  {
    FourGroups(Bits(s[0], 0xF0), Bits(s[1], 0x80), Bits(s[2], 0x80), Bits(s[3], 0x80));
    Shift(Shift(Shift(Bits(s[0], 0xF0), Bits(s[1], 0x80)), Bits(s[2], 0x80)), Bits(s[3], 0x80))
  }

  /** The character a well-formed sequence stands for. */
  function DecodeChar(s: seq<Byte>): (c: Scalar)
    requires Utf8Length(s) > 0
    ensures EncodeChar(c) == s[..Utf8Length(s)]
  {
    match Utf8Length(s)
    case 1 => s[0]
    case 2 => DecodeTwo(s)
    case 3 => DecodeThree(s)
    case _ => DecodeFour(s)
  }

  /** Some characters are encoded by exactly these bytes. */
  ghost predicate IsText(s: seq<Byte>) { exists text :: EncodeText(text) == s }

  lemma {:induction false} TextIsValid(text: seq<Scalar>)
    ensures ValidUtf8(EncodeText(text))
  {
    if text != [] {
      var first, rest := EncodeChar(text[0]), EncodeText(text[1..]);
      EncodedCharIsWellFormed(text[0], rest);
      assert (first + rest)[|first|..] == rest;
      TextIsValid(text[1..]);
    }
  }

  lemma {:induction false} ValidIsText(s: seq<Byte>) returns (text: seq<Scalar>)
    requires ValidUtf8(s)
    ensures EncodeText(text) == s
    decreases |s|
  {
    hide EncodeChar, Utf8Length;
    text := [];
    if s != [] {
      var n := Utf8Length(s);
      var rest := ValidIsText(s[n..]);
      text := [DecodeChar(s)] + rest;
      assert s == s[..n] + s[n..];
    }
  }

  /** Main result: the check accepts exactly the encodings of text, so no surrogate, no overlong form and
      nothing beyond U+10FFFF, and every character there is. */
  lemma ValidIffText(s: seq<Byte>)
    ensures ValidUtf8(s) <==> IsText(s)
  {
    if ValidUtf8(s) {
      var text := ValidIsText(s);
    }
    if text :| EncodeText(text) == s { TextIsValid(text); }
  }

  lemma {:induction false} ValidAppend(a: seq<Byte>, b: seq<Byte>)
    requires ValidUtf8(a)
    ensures ValidUtf8(a + b) <==> ValidUtf8(b)
    decreases |a|
  {
    if a == [] {
      assert a + b == b;
    } else {
      var n := Utf8Length(a);
      assert Utf8Length(a + b) == n;
      assert (a + b)[n..] == a[n..] + b;
      ValidAppend(a[n..], b);
    }
  }

  predicate Ascii(s: seq<Byte>) {
    forall b | b in s :: b < 128
  }

  lemma {:induction false} AsciiIsValid(s: seq<Byte>)
    requires Ascii(s)
    ensures ValidUtf8(s)
    decreases |s|
  {
    if s != [] {
      assert s[0] in s && forall b | b in s[1..] :: b in s;
      AsciiIsValid(s[1..]);
    }
  }
}
