/**
 * Lower-case hexadecimal text, as produced by `binascii.hexlify` over the
 * manufacturer-data bytes of an advertisement, and read back one nibble at a
 * time by `int(chr(c), 16)`.
 */
module Hex {

  newtype byte = x: int | 0 <= x < 256

  /** The characters `hexlify` emits. */
  predicate IsHexDigit(c: char) {
    '0' <= c <= '9' || 'a' <= c <= 'f'
  }

  predicate IsHexString(s: string) {
    forall i :: 0 <= i < |s| ==> IsHexDigit(s[i])
  }

  /** Text made of hex digits only; `int(chr(c), 16)` is defined on each of them. */
  type HexString = s: string | IsHexString(s)

  /** The value `int(c, 16)` gives for a single hex digit. */
  function DigitValue(c: char): (v: nat)
    requires IsHexDigit(c)
    ensures v < 16
    ensures v < 10 <==> '0' <= c <= '9'
    ensures Digit(v) == c
  {
    if c <= '9' then (c as int - '0' as int) else (c as int - 'a' as int) + 10
  }

  /** The digit `hexlify` writes for a nibble. */
  function Digit(v: nat): (c: char)
    requires v < 16
    ensures IsHexDigit(c)
  {
    if v < 10 then ('0' as int + v) as char else ('a' as int + v - 10) as char
  }

  lemma DigitRoundTrip(v: nat)
    requires v < 16
    ensures DigitValue(Digit(v)) == v
  {
  }

  /**
   * `hexlify(b)`: two digits per byte, high nibble first. Reading each
   * pair back as a base-16 number gives the byte it came from.
   */
  function Hexlify(b: seq<byte>): (h: HexString)
    ensures |h| == 2 * |b|
    ensures forall i :: 0 <= i < |b| ==>
              DigitValue(h[2 * i]) * 16 + DigitValue(h[2 * i + 1]) == b[i] as int
  {
    if b == [] then []
    else
      var hi, lo := b[0] as int / 16, b[0] as int % 16;
      DigitRoundTrip(hi);
      DigitRoundTrip(lo);
      var rest := Hexlify(b[1..]);
      assert forall i :: 1 <= i < |b| ==> b[i] == b[1..][i - 1];
      [Digit(hi), Digit(lo)] + rest
  }

  /** Different byte strings never share a hex rendering. */
  lemma HexlifyInjective(a: seq<byte>, b: seq<byte>)
    requires Hexlify(a) == Hexlify(b)
    ensures a == b
  {
    var h := Hexlify(a);
    assert |a| == |b|;
    forall i | 0 <= i < |a| ensures a[i] == b[i] {
      assert a[i] as int == DigitValue(h[2 * i]) * 16 + DigitValue(h[2 * i + 1]) == b[i] as int;
    }
  }
}
