/** The library functions the decode pipeline calls but does not define, kept uninterpreted. */
module Platform {
  import opened Base
  import opened Json

  /** Both SHA-512 and SHA3-512 produce 64-byte digests. */
  const DIGEST_LENGTH := 64

  type Digest = s: Bytes | |s| == DIGEST_LENGTH witness seq(DIGEST_LENGTH, _ => 0)

  /**
   * The primitives, as total functions of their inputs. A primitive that can throw
   * returns `None` for every input on which it throws.
   *  - sha512: `crypto.createHash('sha512').update(x).digest()`
   *  - sha3_512: `sha3_512.arrayBuffer(x)` from js-sha3
   *  - base64Decode: `Buffer.from(s, 'base64')`, which skips invalid characters and never throws
   *  - utf8Decode: `buffer.toString('utf8')`, which never throws
   *  - aes256CbcDecrypt(key, iv, ciphertext): `createDecipheriv` + `update` + `final`
   *  - rsaOaepDecrypt(pem, message): `crypto.privateDecrypt` with OAEP padding
   *  - jsonParse: `JSON.parse`
   */
  datatype Primitives = Primitives(
    sha512: Bytes -> Digest,
    sha3_512: Bytes -> Digest,
    base64Decode: string -> Bytes,
    utf8Decode: Bytes -> string,
    aes256CbcDecrypt: (Bytes, Bytes, Bytes) -> Option<Bytes>,
    rsaOaepDecrypt: (string, Bytes) -> Option<Bytes>,
    jsonParse: string -> Option<Json>)
}
