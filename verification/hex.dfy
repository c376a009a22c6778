/** Lower-case hexadecimal text of a byte buffer (`digest('hex')`) and its ASCII bytes (`Buffer.from(hex, 'utf8')`). */
module Hex {
  import opened Base

  function HexDigit(n: nat): char
    requires n < 16
  {
    if n < 10 then (48 + n) as char else (87 + n) as char
  }

  /** The value of a hexadecimal digit; 0 for any other character. */
  function HexValue(c: char): (v: nat)
    ensures v < 16
  {
    if '0' <= c <= '9' then c as int - 48
    else if 'a' <= c <= 'f' then c as int - 87
    else 0
  }

  lemma HexValueOfDigit(n: nat)
    requires n < 16
    ensures HexValue(HexDigit(n)) == n
  {
  }

  /** Two lower-case hexadecimal digits per byte, high nibble first. */
  function HexString(b: Bytes): (s: string)
    ensures |s| == 2 * |b|
    ensures forall i :: 0 <= i < |s| ==> s[i] as int < 128
    decreases |b|
  {
    if b == [] then "" else [HexDigit(b[0] as int / 16), HexDigit(b[0] as int % 16)] + HexString(b[1..])
  }

  /** The inverse reading of hexadecimal text, two characters per byte. */
  function UnHex(s: string): Bytes
    decreases |s|
  {
    if |s| < 2 then [] else [(HexValue(s[0]) * 16 + HexValue(s[1])) as byte] + UnHex(s[2..])
  }

  lemma {:induction false} HexRoundTrip(b: Bytes)
    ensures UnHex(HexString(b)) == b
    decreases |b|
  {
    if b != [] {
      var s := HexString(b);
      assert s[2..] == HexString(b[1..]);
      HexRoundTrip(b[1..]);
      var v := b[0] as int;
      HexValueOfDigit(v / 16);
      HexValueOfDigit(v % 16);
      assert HexValue(s[0]) * 16 + HexValue(s[1]) == v;
    }
  }

  lemma {:induction false} HexStringAppend(a: Bytes, b: Bytes)
    ensures HexString(a + b) == HexString(a) + HexString(b)
    decreases |a|
  {
    if a == [] {
      assert a + b == b;
    } else {
      assert (a + b)[1..] == a[1..] + b;
      HexStringAppend(a[1..], b);
    }
  }

  /** `Buffer.from(s, 'utf8')` for text whose characters are all ASCII: one byte per character. */
  function AsciiEncode(s: string): (r: Bytes)
    requires forall i :: 0 <= i < |s| ==> s[i] as int < 128
    ensures |r| == |s|
  {
    seq(|s|, i requires 0 <= i < |s| => s[i] as int as byte)
  }

  /**
   * The first 64 bytes of the hex text of a digest are the hex text of its first 32 bytes:
   * a key cut from the hex string at 64 bytes depends on half of the digest only.
   */
  lemma HexPrefixKey(d: Bytes)
    requires |d| >= 32
    ensures AsciiEncode(HexString(d))[..64] == AsciiEncode(HexString(d[..32]))
  {
    assert d == d[..32] + d[32..];
    HexStringAppend(d[..32], d[32..]);
    var h := HexString(d);
    assert h[..64] == HexString(d[..32]);
  }
}
