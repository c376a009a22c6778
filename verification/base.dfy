/** Small shared vocabulary: optional values, bytes and ASCII digits. */
module Base {

  /** A JavaScript value that may be `null` (or a call that may throw and be caught as `null`). */
  datatype Option<+T> = None | Some(value: T)

  /** A Node.js `Buffer` is a sequence of octets. */
  type byte = bv8
  type Bytes = seq<byte>

  function Min(a: int, b: int): int {
    if a <= b then a else b
  }

  /** The characters matched by `\d` in a JavaScript regular expression (ASCII digits only). */
  predicate IsDigit(c: char) {
    '0' <= c <= '9'
  }

  predicate AllDigits(s: string) {
    forall i :: 0 <= i < |s| ==> IsDigit(s[i])
  }
}
