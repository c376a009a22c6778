/**
 * The hand-written HMAC over SHA3-512 (the inner/outer pad construction of section 2 of RFC 2104),
 * parameterised by the pad length so that the rate-136 and block-72 helpers are one construction.
 */
module KeyedHash {
  import opened Base
  import opened Platform

  const IPAD: byte := 0x36
  const OPAD: byte := 0x5c

  /** The pad length of `hmacSha3512` (the SHA3-256 rate, though the code calls it the SHA3-512 rate). */
  const RATE_SIZE: nat := 136
  /** The pad length of `hmacSha3512Block72` (the SHA3-512 rate). */
  const BLOCK_SIZE_72: nat := 72

  /** Byte `i` of a pad: the key byte masked with `fill`, or `fill` itself past the end of the key. */
  function PadByte(key: Bytes, i: nat, fill: byte): byte {
    if i < |key| then key[i] ^ fill else fill
  }

  function KeyPad(key: Bytes, blockSize: nat, fill: byte): (pad: Bytes)
    ensures |pad| == blockSize
  {
    seq(blockSize, i requires 0 <= i < blockSize => PadByte(key, i, fill))
  }

  /** A key longer than the pad is replaced by its SHA3-512 digest; any other key is used as it is. */
  function PadKey(hash: Bytes -> Digest, blockSize: nat, key: Bytes): Bytes {
    if |key| > blockSize then hash(key) else key
  }

  /**
   * The pad the helpers fill from the caller's key: byte `i` of the key after `PadKey`, masked.
   * The choice of `PadKey` sits inside each byte; `HmacPadIsKeyPad` states the pad as a whole.
   */
  function HmacPad(hash: Bytes -> Digest, blockSize: nat, key: Bytes, fill: byte): (pad: Bytes)
    ensures |pad| == blockSize
  {
    seq(blockSize, i requires 0 <= i < blockSize => PadByte(PadKey(hash, blockSize, key), i, fill))
  }

  /** The helpers' pad is the pad of the key after the long-key replacement. */
  lemma HmacPadIsKeyPad(hash: Bytes -> Digest, blockSize: nat, key: Bytes, fill: byte)
    ensures HmacPad(hash, blockSize, key, fill) == KeyPad(PadKey(hash, blockSize, key), blockSize, fill)
  {
  }

  /** H(oKeyPad ++ H(iKeyPad ++ data)). */
  function Hmac(hash: Bytes -> Digest, blockSize: nat, key: Bytes, data: Bytes): Digest {
    hash(HmacPad(hash, blockSize, key, OPAD) + hash(HmacPad(hash, blockSize, key, IPAD) + data))
  }

  /** Removes a mask byte from every byte of `s`. */
  function Unmask(s: Bytes, fill: byte): (r: Bytes)
    ensures |r| == |s|
  {
    seq(|s|, i requires 0 <= i < |s| => s[i] ^ fill)
  }

  /**
   * Fills two freshly allocated pads in one loop and hashes twice: the code of `hmacSha3512`
   * with the pad length as a parameter.
   */
  method ComputeHmac(hash: Bytes -> Digest, blockSize: nat, data: Bytes, key: Bytes) returns (mac: Digest)
    ensures mac == Hmac(hash, blockSize, key, data)
  {
    var keyBuffer := if |key| > blockSize then hash(key) else key;
    var oKeyPad := new byte[blockSize];
    var iKeyPad := new byte[blockSize];
    for i := 0 to blockSize
      invariant forall j :: 0 <= j < i ==> oKeyPad[j] == PadByte(keyBuffer, j, OPAD)
      invariant forall j :: 0 <= j < i ==> iKeyPad[j] == PadByte(keyBuffer, j, IPAD)
    {
      if i < |keyBuffer| {
        oKeyPad[i] := keyBuffer[i] ^ OPAD;
        iKeyPad[i] := keyBuffer[i] ^ IPAD;
      } else {
        oKeyPad[i] := OPAD;
        iKeyPad[i] := IPAD;
      }
    }
    assert oKeyPad[..] == HmacPad(hash, blockSize, key, OPAD);
    assert iKeyPad[..] == HmacPad(hash, blockSize, key, IPAD);
    var innerHash := hash(iKeyPad[..] + data);
    mac := hash(oKeyPad[..] + innerHash);
  }

  /** `hmacSha3512`: the construction with 136-byte pads. */
  method HmacSha3512(sha3: Bytes -> Digest, data: Bytes, key: Bytes) returns (mac: Digest)
    ensures mac == Hmac(sha3, RATE_SIZE, key, data)
  {
    mac := ComputeHmac(sha3, RATE_SIZE, data, key);
  }

  /** `hmacSha3512Block72`: the construction with 72-byte pads. */
  method HmacSha3512Block72(sha3: Bytes -> Digest, data: Bytes, key: Bytes) returns (mac: Digest)
    ensures mac == Hmac(sha3, BLOCK_SIZE_72, key, data)
  {
    mac := ComputeHmac(sha3, BLOCK_SIZE_72, data, key);
  }

  /**
   * A pad carries the key: removing the mask from its first |key| bytes gives the key back,
   * and every later byte is the mask itself.
   */
  lemma KeyPadCarriesKey(key: Bytes, blockSize: nat, fill: byte)
    requires |key| <= blockSize
    ensures Unmask(KeyPad(key, blockSize, fill)[..|key|], fill) == key
    ensures forall i :: |key| <= i < blockSize ==> KeyPad(key, blockSize, fill)[i] == fill
  {
    var pad := KeyPad(key, blockSize, fill);
    forall i | 0 <= i < |key|
      ensures Unmask(pad[..|key|], fill)[i] == key[i]
    {
      assert pad[i] == key[i] ^ fill;
    }
  }

  /** The inner and outer pads differ in every byte (0x36 and 0x5c differ), whatever the key. */
  lemma InnerOuterPadsDiffer(key: Bytes, blockSize: nat)
    ensures forall i :: 0 <= i < blockSize ==> KeyPad(key, blockSize, IPAD)[i] != KeyPad(key, blockSize, OPAD)[i]
  {
    forall i | 0 <= i < blockSize
      ensures KeyPad(key, blockSize, IPAD)[i] != KeyPad(key, blockSize, OPAD)[i]
    {
      if i < |key| {
        var x := key[i];
        assert (x ^ IPAD) ^ (x ^ OPAD) == IPAD ^ OPAD;
      }
    }
  }

  /** A key no longer than the pad is used unchanged. */
  lemma ShortKeyUsedAsIs(hash: Bytes -> Digest, blockSize: nat, key: Bytes, data: Bytes)
    requires |key| <= blockSize
    ensures Hmac(hash, blockSize, key, data)
         == hash(KeyPad(key, blockSize, OPAD) + hash(KeyPad(key, blockSize, IPAD) + data))
  {
    HmacPadIsKeyPad(hash, blockSize, key, OPAD);
    HmacPadIsKeyPad(hash, blockSize, key, IPAD);
  }

  /** With pads of at least 64 bytes, a long key gives the same tag as its SHA3-512 digest. */
  lemma LongKeyReplacedByDigest(hash: Bytes -> Digest, blockSize: nat, key: Bytes, data: Bytes)
    requires DIGEST_LENGTH <= blockSize < |key|
    ensures Hmac(hash, blockSize, key, data) == Hmac(hash, blockSize, hash(key), data)
  {
    forall fill: byte
      ensures HmacPad(hash, blockSize, key, fill) == HmacPad(hash, blockSize, hash(key), fill)
    {
      HmacPadIsKeyPad(hash, blockSize, key, fill);
      HmacPadIsKeyPad(hash, blockSize, hash(key), fill);
    }
  }

  /**
   * Appending a zero byte to a key shorter than the pad does not change the tag: the pad fills
   * with the mask, and 0 XOR mask is the mask.
   */
  lemma TrailingZeroKeyCollides(hash: Bytes -> Digest, blockSize: nat, key: Bytes, data: Bytes)
    requires |key| < blockSize
    ensures Hmac(hash, blockSize, key + [0], data) == Hmac(hash, blockSize, key, data)
  {
    forall fill: byte
      ensures HmacPad(hash, blockSize, key + [0], fill) == HmacPad(hash, blockSize, key, fill)
    {
      HmacPadIsKeyPad(hash, blockSize, key + [0], fill);
      HmacPadIsKeyPad(hash, blockSize, key, fill);
      forall i | 0 <= i < blockSize
        ensures KeyPad(key + [0], blockSize, fill)[i] == KeyPad(key, blockSize, fill)[i]
      {
        if i == |key| {
          assert (key + [0])[i] == 0;
        } else if i < |key| {
          assert (key + [0])[i] == key[i];
        }
      }
    }
  }

  /**
   * For a key of at most 72 bytes the 136-byte pad is the 72-byte pad followed by 64 mask bytes:
   * the two helpers differ only in that tail.
   */
  lemma RatePadExtendsBlockPad(key: Bytes, fill: byte)
    requires |key| <= BLOCK_SIZE_72
    ensures KeyPad(key, RATE_SIZE, fill)
         == KeyPad(key, BLOCK_SIZE_72, fill) + seq(RATE_SIZE - BLOCK_SIZE_72, _ => fill)
  {
    var long := KeyPad(key, RATE_SIZE, fill);
    var short := KeyPad(key, BLOCK_SIZE_72, fill) + seq(RATE_SIZE - BLOCK_SIZE_72, _ => fill);
    forall i | 0 <= i < RATE_SIZE
      ensures long[i] == short[i]
    {
      if i >= BLOCK_SIZE_72 {
        assert short[i] == fill;
      }
    }
  }
}
