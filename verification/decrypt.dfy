/**
 * The token decode pipeline of `decrypt`: base64 decoding, the fixed-offset envelope split,
 * AES-256-CBC decryption of the envelope, the eight-candidate tag cascade and RSA-OAEP decryption;
 * and `extractIdAgen`, which reads the agent id from the decrypted JSON.
 */
module Decryption {
  import opened Base
  import opened Json
  import opened Platform
  import opened Hex
  import opened KeyedHash

  /** `crypto.getCipherInfo('aes-256-cbc').ivLength`. */
  const IV_LENGTH: nat := 16
  /** The embedded tag is cut at 64 bytes, the SHA3-512 output size. */
  const TAG_LENGTH: nat := 64
  /** The hex-text candidate key keeps the first 64 bytes of the 128-character hex string. */
  const HEX_KEY_LENGTH: nat := 64
  /** Two pad lengths for each of four keys. */
  const CANDIDATE_COUNT: nat := 8

  /** The three slices of the server-held blob. */
  datatype Envelope = Envelope(iv: Bytes, tag: Bytes, ciphertext: Bytes)

  /** `Buffer#subarray(start, end)`: both ends are clamped to the buffer, and a reversed range is empty. */
  function Subarray(b: Bytes, start: nat, end: nat): Bytes {
    var lo := Min(start, |b|);
    var hi := Min(end, |b|);
    if lo <= hi then b[lo..hi] else []
  }

  /** Cuts the blob at offsets 16 and 80 with no check of its length. */
  function SplitEnvelope(blob: Bytes): (e: Envelope)
    ensures e.iv + e.tag + e.ciphertext == blob
    ensures |e.iv| == Min(IV_LENGTH, |blob|)
    ensures |e.tag| == Min(TAG_LENGTH, |blob| - |e.iv|)
    ensures IV_LENGTH + TAG_LENGTH <= |blob| ==>
              && e.iv == blob[..IV_LENGTH]
              && e.tag == blob[IV_LENGTH..IV_LENGTH + TAG_LENGTH]
              && e.ciphertext == blob[IV_LENGTH + TAG_LENGTH..]
  {
    Envelope(
      Subarray(blob, 0, IV_LENGTH),
      Subarray(blob, IV_LENGTH, IV_LENGTH + TAG_LENGTH),
      Subarray(blob, IV_LENGTH + TAG_LENGTH, |blob|))
  }

  /** Splitting a blob laid out as IV, tag and ciphertext gives the three parts back. */
  lemma SplitJoinedEnvelope(iv: Bytes, tag: Bytes, ciphertext: Bytes)
    requires |iv| == IV_LENGTH && |tag| == TAG_LENGTH
    ensures SplitEnvelope(iv + tag + ciphertext) == Envelope(iv, tag, ciphertext)
  {
    var blob := iv + tag + ciphertext;
    assert blob[..IV_LENGTH] == iv;
    assert blob[IV_LENGTH..IV_LENGTH + TAG_LENGTH] == tag;
    assert blob[IV_LENGTH + TAG_LENGTH..] == ciphertext;
  }

  /** `crypto.timingSafeEqual`: throws (`None`) when the lengths differ, otherwise compares. */
  function TimingSafeEqual(a: Bytes, b: Bytes): (r: Option<bool>)
    ensures r.None? <==> |a| != |b|
    ensures r.Some? ==> (r.value <==> a == b)
  {
    if |a| != |b| then None else Some(a == b)
  }

  /**
   * The four keys tried, in order: the SHA-512 digest of the auth key, the base64 reading of that
   * digest's hex text, the first 64 bytes of the hex text, and the auth key itself.
   */
  function CandidateKeys(p: Primitives, authKey: Bytes): (keys: seq<Bytes>)
    ensures |keys| == 4
  {
    var digest := p.sha512(authKey);
    var hexHash := HexString(digest);
    [digest, p.base64Decode(hexHash), Subarray(AsciiEncode(hexHash), 0, HEX_KEY_LENGTH), authKey]
  }

  /** The eight candidate tags: each key with 136-byte pads, then with 72-byte pads. */
  function CandidateTags(p: Primitives, authKey: Bytes, ciphertext: Bytes): (tags: seq<Digest>)
    ensures |tags| == CANDIDATE_COUNT
  {
    var k := CandidateKeys(p, authKey);
    [ Hmac(p.sha3_512, RATE_SIZE, k[0], ciphertext), Hmac(p.sha3_512, BLOCK_SIZE_72, k[0], ciphertext),
      Hmac(p.sha3_512, RATE_SIZE, k[1], ciphertext), Hmac(p.sha3_512, BLOCK_SIZE_72, k[1], ciphertext),
      Hmac(p.sha3_512, RATE_SIZE, k[2], ciphertext), Hmac(p.sha3_512, BLOCK_SIZE_72, k[2], ciphertext),
      Hmac(p.sha3_512, RATE_SIZE, k[3], ciphertext), Hmac(p.sha3_512, BLOCK_SIZE_72, k[3], ciphertext) ]
  }

  /** The third candidate key is the ASCII hex text of the first 32 bytes of the auth key's digest. */
  lemma HexCandidateKeyUsesHalfDigest(p: Primitives, authKey: Bytes)
    ensures CandidateKeys(p, authKey)[2] == AsciiEncode(HexString(p.sha512(authKey)[..32]))
  {
    var digest := p.sha512(authKey);
    HexPrefixKey(digest);
    assert Subarray(AsciiEncode(HexString(digest)), 0, HEX_KEY_LENGTH) == AsciiEncode(HexString(digest))[..64];
  }

  /** How the cascade ended; `Matched` carries the position of the first candidate equal to the tag. */
  datatype TagCheck = LengthMismatch | NoMatch | Matched(index: nat, mac: Digest)

  /**
   * The tag cascade: compare the embedded tag with each candidate in order and keep the first
   * that is equal. The first comparison throws when the tag is not 64 bytes long.
   */
  method VerifyTag(p: Primitives, decodedAuthKey: Bytes, opensslEnc: Bytes, hashHmac: Bytes) returns (check: TagCheck)
    ensures check.LengthMismatch? <==> |hashHmac| != TAG_LENGTH
    ensures check.NoMatch? <==>
              |hashHmac| == TAG_LENGTH && hashHmac !in CandidateTags(p, decodedAuthKey, opensslEnc)
    ensures check.Matched? ==>
              && check.index < CANDIDATE_COUNT
              && check.mac == hashHmac
              && CandidateTags(p, decodedAuthKey, opensslEnc)[check.index] == hashHmac
              && forall j :: 0 <= j < check.index ==> CandidateTags(p, decodedAuthKey, opensslEnc)[j] != hashHmac
  {
    ghost var tags := CandidateTags(p, decodedAuthKey, opensslEnc);
    ghost var keys := CandidateKeys(p, decodedAuthKey);
    var decodedAuthKeySha512 := p.sha512(decodedAuthKey);
    var hexHash := HexString(decodedAuthKeySha512);
    var hashHmacNew := HmacSha3512(p.sha3_512, opensslEnc, decodedAuthKeySha512);
    var hashHmacNewAlt := HmacSha3512Block72(p.sha3_512, opensslEnc, decodedAuthKeySha512);
    assert keys[0] == decodedAuthKeySha512;
    assert tags[0] == hashHmacNew && tags[1] == hashHmacNewAlt;

    var first := TimingSafeEqual(hashHmac, hashHmacNew);
    if first.None? {
      return LengthMismatch;
    }
    // From here on both sides are 64 bytes long, so timingSafeEqual is plain equality.
    if !first.value {
      if hashHmac == hashHmacNewAlt {
        hashHmacNew := hashHmacNewAlt;
        return Matched(1, hashHmacNew);
      }
      var decodedFromHex := p.base64Decode(hexHash);
      var hashHmacAlt2 := HmacSha3512(p.sha3_512, opensslEnc, decodedFromHex);
      var hashHmacAlt2b := HmacSha3512Block72(p.sha3_512, opensslEnc, decodedFromHex);
      assert keys[1] == decodedFromHex;
      assert tags[2] == hashHmacAlt2 && tags[3] == hashHmacAlt2b;
      if hashHmac == hashHmacAlt2 {
        hashHmacNew := hashHmacAlt2;
        return Matched(2, hashHmacNew);
      } else if hashHmac == hashHmacAlt2b {
        hashHmacNew := hashHmacAlt2b;
        return Matched(3, hashHmacNew);
      }
      var hexKeyBuffer := Subarray(AsciiEncode(hexHash), 0, HEX_KEY_LENGTH);
      var hashHmacAlt3 := HmacSha3512(p.sha3_512, opensslEnc, hexKeyBuffer);
      var hashHmacAlt3b := HmacSha3512Block72(p.sha3_512, opensslEnc, hexKeyBuffer);
      assert keys[2] == hexKeyBuffer;
      assert tags[4] == hashHmacAlt3 && tags[5] == hashHmacAlt3b;
      if hashHmac == hashHmacAlt3 {
        hashHmacNew := hashHmacAlt3;
        return Matched(4, hashHmacNew);
      } else if hashHmac == hashHmacAlt3b {
        hashHmacNew := hashHmacAlt3b;
        return Matched(5, hashHmacNew);
      }
      var hashHmacAlt1 := HmacSha3512(p.sha3_512, opensslEnc, decodedAuthKey);
      var hashHmacAlt1b := HmacSha3512Block72(p.sha3_512, opensslEnc, decodedAuthKey);
      assert keys[3] == decodedAuthKey;
      assert tags[6] == hashHmacAlt1 && tags[7] == hashHmacAlt1b;
      if hashHmac == hashHmacAlt1 {
        hashHmacNew := hashHmacAlt1;
        return Matched(6, hashHmacNew);
      } else if hashHmac == hashHmacAlt1b {
        hashHmacNew := hashHmacAlt1b;
        return Matched(7, hashHmacNew);
      }
      assert forall j :: 0 <= j < CANDIDATE_COUNT ==> tags[j] != hashHmac;
      return NoMatch;
    }
    return Matched(0, hashHmacNew);
  }

  /**
   * What `decrypt` returns, stated over the whole input: null unless AES decryption succeeds,
   * the embedded tag is one of the eight candidates and RSA decryption succeeds.
   */
  function DecryptOutcome(p: Primitives, pesan: string, privateKey: string, authKey: string): Option<string> {
    var decodedAuthKey := p.base64Decode(authKey);
    var envelope := SplitEnvelope(p.base64Decode(privateKey));
    match p.aes256CbcDecrypt(decodedAuthKey, envelope.iv, envelope.ciphertext)
    case None => None
    case Some(keyMaterial) =>
      if |envelope.tag| != TAG_LENGTH || envelope.tag !in CandidateTags(p, decodedAuthKey, envelope.ciphertext) then None
      else
        match p.rsaOaepDecrypt(p.utf8Decode(keyMaterial), p.base64Decode(pesan))
        case None => None
        case Some(plain) => Some(p.utf8Decode(plain))
  }

  /**
   * `decrypt(pesan, privateKey, authKey)`: every thrown error is caught and returned as null,
   * AES decryption runs before the tag check, and RSA decryption only after a candidate matched.
   */
  method Decrypt(p: Primitives, pesan: string, privateKey: string, authKey: string) returns (r: Option<string>)
    ensures r == DecryptOutcome(p, pesan, privateKey, authKey)
  {
    var decodedPesan := p.base64Decode(pesan);
    var decodedAuthKey := p.base64Decode(authKey);
    var decodedPrivateKey := p.base64Decode(privateKey);
    var envelope := SplitEnvelope(decodedPrivateKey);
    var decryptedData := p.aes256CbcDecrypt(decodedAuthKey, envelope.iv, envelope.ciphertext);
    if decryptedData.None? {
      return None;
    }
    var check := VerifyTag(p, decodedAuthKey, envelope.ciphertext, envelope.tag);
    if !check.Matched? {
      return None;
    }
    assert envelope.tag in CandidateTags(p, decodedAuthKey, envelope.ciphertext);
    var rsaDecrypted := p.rsaOaepDecrypt(p.utf8Decode(decryptedData.value), decodedPesan);
    if rsaDecrypted.None? {
      return None;
    }
    return Some(p.utf8Decode(rsaDecrypted.value));
  }

  /** A non-null result needs a blob of at least 80 bytes, a successful AES step and a tag among the candidates. */
  lemma DecryptAcceptsOnlyCandidateTags(p: Primitives, pesan: string, privateKey: string, authKey: string)
    requires DecryptOutcome(p, pesan, privateKey, authKey).Some?
    ensures |p.base64Decode(privateKey)| >= IV_LENGTH + TAG_LENGTH
    ensures
      var decodedAuthKey := p.base64Decode(authKey);
      var envelope := SplitEnvelope(p.base64Decode(privateKey));
      && p.aes256CbcDecrypt(decodedAuthKey, envelope.iv, envelope.ciphertext).Some?
      && envelope.tag in CandidateTags(p, decodedAuthKey, envelope.ciphertext)
  {
  }

  /** A blob shorter than 80 bytes always gives null: its tag slice is short and the comparison throws. */
  lemma ShortEnvelopeIsNull(p: Primitives, pesan: string, privateKey: string, authKey: string)
    requires |p.base64Decode(privateKey)| < IV_LENGTH + TAG_LENGTH
    ensures DecryptOutcome(p, pesan, privateKey, authKey) == None
  {
    var envelope := SplitEnvelope(p.base64Decode(privateKey));
    assert |envelope.tag| < TAG_LENGTH;
  }

  /** An AES failure gives null whatever the tag: decryption runs before the tag check. */
  lemma AesFailureIsNull(p: Primitives, pesan: string, privateKey: string, authKey: string)
    requires
      var envelope := SplitEnvelope(p.base64Decode(privateKey));
      p.aes256CbcDecrypt(p.base64Decode(authKey), envelope.iv, envelope.ciphertext).None?
    ensures DecryptOutcome(p, pesan, privateKey, authKey) == None
  {
  }

  /**
   * When no candidate matches, the result is null whichever RSA implementation is plugged in:
   * the RSA step is never reached.
   */
  lemma UnmatchedTagNeverReachesRsa(p: Primitives, rsa: (string, Bytes) -> Option<Bytes>,
                                    pesan: string, privateKey: string, authKey: string)
    requires
      var decodedAuthKey := p.base64Decode(authKey);
      var envelope := SplitEnvelope(p.base64Decode(privateKey));
      envelope.tag !in CandidateTags(p, decodedAuthKey, envelope.ciphertext)
    ensures DecryptOutcome(p.(rsaOaepDecrypt := rsa), pesan, privateKey, authKey) == None
  {
    var q := p.(rsaOaepDecrypt := rsa);
    var decodedAuthKey := p.base64Decode(authKey);
    var envelope := SplitEnvelope(p.base64Decode(privateKey));
    assert CandidateKeys(q, decodedAuthKey) == CandidateKeys(p, decodedAuthKey);
    assert CandidateTags(q, decodedAuthKey, envelope.ciphertext) == CandidateTags(p, decodedAuthKey, envelope.ciphertext);
  }

  /** A failing RSA step gives null even after AES succeeded and a candidate matched. */
  lemma RsaFailureIsNull(p: Primitives, pesan: string, privateKey: string, authKey: string, keyMaterial: Bytes)
    requires
      var envelope := SplitEnvelope(p.base64Decode(privateKey));
      && p.aes256CbcDecrypt(p.base64Decode(authKey), envelope.iv, envelope.ciphertext) == Some(keyMaterial)
      && p.rsaOaepDecrypt(p.utf8Decode(keyMaterial), p.base64Decode(pesan)).None?
    ensures DecryptOutcome(p, pesan, privateKey, authKey) == None
  {
  }

  /**
   * The result is non-null exactly when AES decryption succeeds, the embedded tag is a candidate
   * and RSA decryption of the message succeeds under the recovered key; it is then the UTF-8 text
   * of the RSA plaintext.
   */
  lemma DecryptSomeIff(p: Primitives, pesan: string, privateKey: string, authKey: string)
    ensures
      var decodedAuthKey := p.base64Decode(authKey);
      var envelope := SplitEnvelope(p.base64Decode(privateKey));
      var aes := p.aes256CbcDecrypt(decodedAuthKey, envelope.iv, envelope.ciphertext);
      DecryptOutcome(p, pesan, privateKey, authKey).Some? <==>
        && aes.Some?
        && envelope.tag in CandidateTags(p, decodedAuthKey, envelope.ciphertext)
        && p.rsaOaepDecrypt(p.utf8Decode(aes.value), p.base64Decode(pesan)).Some?
    ensures
      var decodedAuthKey := p.base64Decode(authKey);
      var envelope := SplitEnvelope(p.base64Decode(privateKey));
      var aes := p.aes256CbcDecrypt(decodedAuthKey, envelope.iv, envelope.ciphertext);
      DecryptOutcome(p, pesan, privateKey, authKey).Some? ==>
        DecryptOutcome(p, pesan, privateKey, authKey).value
          == p.utf8Decode(p.rsaOaepDecrypt(p.utf8Decode(aes.value), p.base64Decode(pesan)).value)
  {
  }

  /** With every step succeeding, the result is the UTF-8 text of the RSA plaintext. */
  lemma DecryptSucceeds(p: Primitives, pesan: string, privateKey: string, authKey: string,
                        keyMaterial: Bytes, plain: Bytes)
    requires
      var decodedAuthKey := p.base64Decode(authKey);
      var envelope := SplitEnvelope(p.base64Decode(privateKey));
      && p.aes256CbcDecrypt(decodedAuthKey, envelope.iv, envelope.ciphertext) == Some(keyMaterial)
      && envelope.tag in CandidateTags(p, decodedAuthKey, envelope.ciphertext)
      && p.rsaOaepDecrypt(p.utf8Decode(keyMaterial), p.base64Decode(pesan)) == Some(plain)
    ensures DecryptOutcome(p, pesan, privateKey, authKey) == Some(p.utf8Decode(plain))
  {
    var envelope := SplitEnvelope(p.base64Decode(privateKey));
    assert |envelope.tag| == TAG_LENGTH;
  }

  // ---------------------------------------------------------------------------------------------
  // extractIdAgen

  /** The identifier fields, in the order they are tried. */
  const ID_FIELDS: seq<string> := ["idagen", "idmember"]

  /**
   * `extractIdAgen`: parse the text as JSON and return `String(v)` for the first of `idagen`,
   * `idmember` whose value `v` is truthy. Unparseable text, `null` (reading a field of it throws),
   * other non-objects and objects without such a field give null, and so does a value whose
   * conversion throws: the catch turns that into null without trying `idmember`.
   */
  function ExtractIdAgen(jsonParse: string -> Option<Json>, decryptedData: string): Option<string> {
    match jsonParse(decryptedData)
    case None => None
    case Some(JObject(fields)) =>
      if "idagen" in fields && Truthy(fields["idagen"]) then JsString(fields["idagen"])
      else if "idmember" in fields && Truthy(fields["idmember"]) then JsString(fields["idmember"])
      else None
    case Some(_) => None
  }

  /** Reference reading: the value of the first field of `names` that is present and truthy. */
  function FirstTruthyField(fields: map<string, Json>, names: seq<string>): (r: Option<Json>)
    ensures r.Some? ==> exists i :: 0 <= i < |names| && names[i] in fields && Truthy(fields[names[i]])
                                    && r.value == fields[names[i]]
                                    && forall j :: 0 <= j < i ==> !(names[j] in fields && Truthy(fields[names[j]]))
    ensures r.None? ==> forall i :: 0 <= i < |names| ==> !(names[i] in fields && Truthy(fields[names[i]]))
  {
    if names == [] then None
    else if names[0] in fields && Truthy(fields[names[0]]) then Some(fields[names[0]])
    else
      var rest := FirstTruthyField(fields, names[1..]);
      assert forall i :: 1 <= i < |names| ==> names[i] == names[1..][i - 1];
      assert rest.Some? ==> exists i :: 1 <= i < |names| && names[i] in fields && Truthy(fields[names[i]])
                                     && rest.value == fields[names[i]]
                                     && forall j :: 0 <= j < i ==> !(names[j] in fields && Truthy(fields[names[j]])) by {
        if rest.Some? {
          var k :| 0 <= k < |names[1..]| && names[1..][k] in fields && Truthy(fields[names[1..][k]])
                   && rest.value == fields[names[1..][k]]
                   && forall j :: 0 <= j < k ==> !(names[1..][j] in fields && Truthy(fields[names[1..][j]]));
          assert names[k + 1] == names[1..][k];
        }
      }
      rest
  }

  /**
   * `extractIdAgen` is the ordered search over ["idagen", "idmember"] on a parsed object, followed by
   * `String()` of the value found.
   */
  lemma ExtractIsOrderedFieldSearch(jsonParse: string -> Option<Json>, decryptedData: string)
    ensures ExtractIdAgen(jsonParse, decryptedData) ==
      match jsonParse(decryptedData)
      case Some(JObject(fields)) =>
        (match FirstTruthyField(fields, ID_FIELDS)
         case Some(v) => JsString(v)
         case None => None)
      case _ => None
  {
    match jsonParse(decryptedData)
    case Some(JObject(fields)) =>
      assert ID_FIELDS[1..] == ["idmember"];
      assert ID_FIELDS[1..][1..] == [];
    case _ =>
  }

  /**
   * A non-null id comes from a parsed object with a truthy `idagen` that converts, or else with no
   * truthy `idagen` and a truthy `idmember` that converts, and conversely.
   */
  lemma ExtractSomeIff(jsonParse: string -> Option<Json>, decryptedData: string)
    ensures ExtractIdAgen(jsonParse, decryptedData).Some? <==>
      (jsonParse(decryptedData).Some? && jsonParse(decryptedData).value.JObject? &&
       var fields := jsonParse(decryptedData).value.fields;
       if "idagen" in fields && Truthy(fields["idagen"]) then !ConversionThrows(fields["idagen"])
       else "idmember" in fields && Truthy(fields["idmember"]) && !ConversionThrows(fields["idmember"]))
  {
  }

  /** A truthy `idagen` decides the outcome whatever `idmember` holds: its `String()`, or null if that throws. */
  lemma IdagenTakesPrecedence(jsonParse: string -> Option<Json>, decryptedData: string, fields: map<string, Json>)
    requires jsonParse(decryptedData) == Some(JObject(fields))
    requires "idagen" in fields && Truthy(fields["idagen"])
    ensures ExtractIdAgen(jsonParse, decryptedData) == JsString(fields["idagen"])
    ensures ExtractIdAgen(jsonParse, decryptedData).None? <==> ConversionThrows(fields["idagen"])
  {
  }

  /** A truthy value can still convert to the empty string: `{"idagen": []}` gives "". */
  lemma EmptyArrayIdIsEmptyString(jsonParse: string -> Option<Json>, decryptedData: string)
    requires jsonParse(decryptedData) == Some(JObject(map["idagen" := JArray([])]))
    ensures ExtractIdAgen(jsonParse, decryptedData) == Some("")
  {
  }

  /**
   * `{"idagen": {"toString": 1}, "idmember": "7"}` gives null: `String()` of the id throws and the
   * catch returns null, so the usable `idmember` is never read.
   */
  lemma OwnToStringIdIsNull(jsonParse: string -> Option<Json>, decryptedData: string)
    requires jsonParse(decryptedData)
          == Some(JObject(map["idagen" := JObject(map["toString" := JNumber(1)]), "idmember" := JString("7")]))
    ensures ExtractIdAgen(jsonParse, decryptedData) == None
  {
  }
}
