/** The text forms that record and output ids are built from: hexadecimal and decimal. A text is the
    sequence of its UTF-8 bytes. */
module Text {
  import opened ByteBits
  import opened Primitives

  type Text = Bytes

  const COLON: Text := [58]

  function HexDigit(n: nat): byte
    requires n < 16
  {
    if n < 10 then 48 + n else 87 + n
  }

  /** Lower-case hexadecimal, two digits a byte. */
  function Hex(b: Bytes): (t: Text)
    ensures |t| == 2 * |b|
  {
    if b == [] then []
    else
      var last := b[|b| - 1];
      Hex(b[..|b| - 1]) + [HexDigit(last / 16), HexDigit(last % 16)]
  }

  lemma {:induction false} HexInjective(a: Bytes, b: Bytes)
    requires Hex(a) == Hex(b)
    ensures a == b
  {
    if a != [] {
      var x, y := a[|a| - 1], b[|b| - 1];
      SplitAt(Hex(a[..|a| - 1]), [HexDigit(x / 16), HexDigit(x % 16)],
              Hex(b[..|b| - 1]), [HexDigit(y / 16), HexDigit(y % 16)]);
      HexInjective(a[..|a| - 1], b[..|b| - 1]);
      assert x / 16 == y / 16 && x % 16 == y % 16;
      assert a == a[..|a| - 1] + [x] && b == b[..|b| - 1] + [y];
    }
  }

  /** The value of a hexadecimal digit, of either case. */
  function DigitValue(c: byte): Option<nat> {
    if 48 <= c < 58 then Some(c - 48)
    else if 97 <= c < 103 then Some(c - 87)
    else if 65 <= c < 71 then Some(c - 55)
    else None
  }

  /** Two characters read as a byte; the integer parser of the source allows a plus sign in front. */
  function PairValue(a: byte, b: byte): Option<byte> {
    var high, low := if a == 43 then Some(0) else DigitValue(a), DigitValue(b);
    if high.None? || low.None? || high.value >= 16 || low.value >= 16 then None
    else Some(16 * high.value + low.value)
  }

  function UnHex(t: Text): Option<Bytes>
    requires |t| % 2 == 0
  {
    if t == [] then Some([])
    else
      var n := |t| - 2;
      var front, last := UnHex(t[..n]), PairValue(t[n], t[n + 1]);
      if front.None? || last.None? then None else Some(front.value + [last.value])
  }

  /** Reading a 32-byte value from hexadecimal. */
  function ParseHex(t: Text): Option<Bytes32> {
    if |t| != 64 then None
    else
      var b := UnHex(t);
      if b.Some? && |b.value| == 32 then Some(b.value) else None
  }

  lemma {:induction false} UnHexOfHex(b: Bytes)
    ensures UnHex(Hex(b)) == Some(b)
  {
    if b != [] {
      var n, last := |b| - 1, b[|b| - 1];
      var t := Hex(b);
      UnHexOfHex(b[..n]);
      assert t[..|t| - 2] == Hex(b[..n]);
      assert PairValue(t[|t| - 2], t[|t| - 1]) == Some(last);
      assert b == b[..n] + [last];
    }
  }

  lemma {:induction false} ParseHexOfHex(d: Bytes32)
    ensures ParseHex(Hex(d)) == Some(d)
  {
    UnHexOfHex(d);
  }

  /** Decimal digits without leading zeros. */
  function Decimal(n: nat): (t: Text)
    ensures t != []
  {
    if n < 10 then [48 + n] else Decimal(n / 10) + [48 + n % 10]
  }

  lemma {:induction false} DecimalInjective(m: nat, n: nat)
    requires Decimal(m) == Decimal(n)
    ensures m == n
  {
    assert Decimal(m)[|Decimal(m)| - 1] == 48 + m % 10;
    assert Decimal(n)[|Decimal(n)| - 1] == 48 + n % 10;
    if m >= 10 && n >= 10 {
      SplitAt(Decimal(m / 10), [48 + m % 10], Decimal(n / 10), [48 + n % 10]);
      DecimalInjective(m / 10, n / 10);
    }
  }
}
