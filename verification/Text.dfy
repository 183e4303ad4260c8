/** Decimal numbers and lengths in bytes. */
module Text {
  import Utf8

  /** Bytes of a character in UTF-8. */
  function Utf8Size(c: char): nat {
    if c as int < 0x80 then 1 else if c as int < 0x800 then 2 else if c as int < 0x10000 then 3 else 4
  }

  function ByteLength(s: string): nat {
    if s == "" then 0 else Utf8Size(s[0]) + ByteLength(s[1..])
  }

  lemma {:induction false} ByteLengthIsEncodedLength(s: string)
    ensures ByteLength(s) == |Utf8.EncodeText(Scalars(s))|
  {
    if s != "" {
      assert Scalars(s)[1..] == Scalars(s[1..]);
      ByteLengthIsEncodedLength(s[1..]);
    }
  }

  /** The characters as scalar values. */
  function Scalars(s: string): seq<Utf8.Scalar> {
    seq(|s|, i requires 0 <= i < |s| => s[i] as int)
  }

  lemma {:induction false} ByteLengthAppend(a: string, b: string)
    ensures ByteLength(a + b) == ByteLength(a) + ByteLength(b)
  {
    if a == "" {
      assert a + b == b;
    } else {
      assert (a + b)[1..] == a[1..] + b;
      ByteLengthAppend(a[1..], b);
    }
  }

  lemma {:induction false} DigitsAreBytes(s: string)
    requires AllDigits(s)
    ensures ByteLength(s) == |s|
  {
    if s != "" { DigitsAreBytes(s[1..]); }
  }

  predicate IsDigit(c: char) { '0' <= c <= '9' }

  predicate AllDigits(s: string) { forall i | 0 <= i < |s| :: IsDigit(s[i]) }

  function DigitValue(c: char): nat
    requires IsDigit(c)
  {
    c as int - '0' as int
  }

  /** The number a digit run denotes; leading zeros are allowed. */
  function Value(s: string): nat
    requires AllDigits(s)
  {
    if s == "" then 0 else 10 * Value(s[..|s| - 1]) + DigitValue(s[|s| - 1])
  }

  function Digit(d: nat): (c: char)
    requires d < 10
    ensures IsDigit(c) && DigitValue(c) == d
  {
    (d + '0' as int) as char
  }

  /** The decimal form of n. */
  function Decimal(n: nat): (s: string)
    ensures s != "" && AllDigits(s)
  {
    if n < 10 then [Digit(n)] else Decimal(n / 10) + [Digit(n % 10)]
  }

  lemma DecimalIsShort(n: nat)
    requires n < 100000
    ensures |Decimal(n)| <= 5
  {
    var tens, hundreds, thousands := n / 10, n / 100, n / 1000;
    assert hundreds == tens / 10 && thousands == hundreds / 10 && thousands / 10 < 10;
    assert |Decimal(thousands)| <= 2 && |Decimal(hundreds)| <= 3 && |Decimal(tens)| <= 4;
  }

  lemma {:induction false} DecimalDenotes(n: nat)
    ensures Value(Decimal(n)) == n
    ensures n > 0 ==> Decimal(n)[0] != '0'
  {
    if n < 10 {
      assert Decimal(n)[..0] == "";
    } else {
      DecimalDenotes(n / 10);
      var s := Decimal(n);
      assert s[..|s| - 1] == Decimal(n / 10);
    }
  }
}
