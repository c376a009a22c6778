/**
 * The GET handler of /api/auth/decode: guard the query parameters and the configured blob,
 * run `decrypt` and `extractIdAgen`, and redirect either to the payment page or to /not-found.
 */
module DecodeRoute {
  import opened Base
  import opened Platform
  import opened Decryption

  /** The one target of every failure. */
  const NOT_FOUND: string := "/not-found"

  /** A redirect response, reduced to the path it names. */
  datatype Redirect = Redirect(path: string)

  /** JavaScript truthiness of `string | null`: null and "" are falsy. */
  predicate Present(v: Option<string>) {
    v.Some? && v.value != ""
  }

  /**
   * `GET`: `key`, `signature` and `paymentMethod` are the query parameters and `privateKeyEnv`
   * is `DECRYPT_PRIVATE_KEY`. `decrypt` gets the signature as the message, the configured blob as
   * the envelope and the key as the auth key.
   */
  function Get(p: Primitives, key: Option<string>, signature: Option<string>,
               paymentMethod: Option<string>, privateKeyEnv: Option<string>): Redirect
  {
    if !Present(key) || !Present(signature) || !Present(paymentMethod) then Redirect(NOT_FOUND)
    else if !Present(privateKeyEnv) then Redirect(NOT_FOUND)
    else
      var decryptedData := DecryptOutcome(p, signature.value, privateKeyEnv.value, key.value);
      if !Present(decryptedData) then Redirect(NOT_FOUND)
      else
        var idagen := ExtractIdAgen(p.jsonParse, decryptedData.value);
        if !Present(idagen) then Redirect(NOT_FOUND)
        else Redirect("/" + paymentMethod.value + "/" + idagen.value)
  }

  /**
   * A missing or empty query parameter gives /not-found whatever the primitives do:
   * `decrypt` is not consulted.
   */
  lemma MissingParameterSkipsDecrypt(p: Primitives, q: Primitives, key: Option<string>, signature: Option<string>,
                                     paymentMethod: Option<string>, privateKeyEnv: Option<string>)
    requires !Present(key) || !Present(signature) || !Present(paymentMethod)
    ensures Get(p, key, signature, paymentMethod, privateKeyEnv) == Get(q, key, signature, paymentMethod, privateKeyEnv)
    ensures Get(p, key, signature, paymentMethod, privateKeyEnv).path == NOT_FOUND
  {
  }

  /** An unset or empty `DECRYPT_PRIVATE_KEY` gives /not-found, also without consulting `decrypt`. */
  lemma MissingConfigurationSkipsDecrypt(p: Primitives, q: Primitives, key: Option<string>, signature: Option<string>,
                                         paymentMethod: Option<string>, privateKeyEnv: Option<string>)
    requires !Present(privateKeyEnv)
    ensures Get(p, key, signature, paymentMethod, privateKeyEnv) == Get(q, key, signature, paymentMethod, privateKeyEnv)
    ensures Get(p, key, signature, paymentMethod, privateKeyEnv).path == NOT_FOUND
  {
  }

  /**
   * The redirect leaves /not-found exactly when every stage succeeds, and then it is
   * "/" + paymentMethod + "/" + idagen.
   */
  lemma SuccessIff(p: Primitives, key: Option<string>, signature: Option<string>,
                   paymentMethod: Option<string>, privateKeyEnv: Option<string>)
    ensures
      var r := Get(p, key, signature, paymentMethod, privateKeyEnv);
      r.path != NOT_FOUND <==>
        && Present(key) && Present(signature) && Present(paymentMethod) && Present(privateKeyEnv)
        && var d := DecryptOutcome(p, signature.value, privateKeyEnv.value, key.value);
           Present(d) && Present(ExtractIdAgen(p.jsonParse, d.value))
    ensures
      var r := Get(p, key, signature, paymentMethod, privateKeyEnv);
      r.path != NOT_FOUND ==>
        var d := DecryptOutcome(p, signature.value, privateKeyEnv.value, key.value);
        r.path == "/" + paymentMethod.value + "/" + ExtractIdAgen(p.jsonParse, d.value).value
  {
    var r := Get(p, key, signature, paymentMethod, privateKeyEnv);
    if Present(key) && Present(signature) && Present(paymentMethod) && Present(privateKeyEnv) {
      var d := DecryptOutcome(p, signature.value, privateKeyEnv.value, key.value);
      if Present(d) && Present(ExtractIdAgen(p.jsonParse, d.value)) {
        SuccessPathIsNotNotFound(paymentMethod.value, ExtractIdAgen(p.jsonParse, d.value).value);
      }
    }
  }

  /**
   * A success path as built is never the failure path. After `new URL` normalises it they can meet:
   * the segment "." with the id "not-found" resolves to /not-found.
   */
  lemma SuccessPathIsNotNotFound(segment: string, id: string)
    requires segment != "" && id != ""
    ensures "/" + segment + "/" + id != NOT_FOUND
  {
    var path := "/" + segment + "/" + id;
    var k := |segment| + 1;
    assert path[k] == '/';
    if |path| == |NOT_FOUND| {
      assert 1 < k < |NOT_FOUND|;
      assert NOT_FOUND[k] != '/';
    }
  }

  /** An empty RSA plaintext is rejected by the route's own check, before any JSON parsing. */
  lemma EmptyPlaintextRejected(p: Primitives, key: Option<string>, signature: Option<string>,
                               paymentMethod: Option<string>, privateKeyEnv: Option<string>)
    requires Present(key) && Present(signature) && Present(privateKeyEnv)
    requires DecryptOutcome(p, signature.value, privateKeyEnv.value, key.value) == Some("")
    ensures Get(p, key, signature, paymentMethod, privateKeyEnv).path == NOT_FOUND
  {
  }

  /**
   * The payment-method segment is not checked: a segment that starts with "/" makes a success path
   * that starts with "//", which URL resolution reads as another host.
   */
  lemma SlashSegmentGivesSchemeRelativePath(p: Primitives, key: Option<string>, signature: Option<string>,
                                            paymentMethod: Option<string>, privateKeyEnv: Option<string>)
    requires paymentMethod.Some? && |paymentMethod.value| > 0 && paymentMethod.value[0] == '/'
    requires Get(p, key, signature, paymentMethod, privateKeyEnv).path != NOT_FOUND
    ensures |Get(p, key, signature, paymentMethod, privateKeyEnv).path| >= 2
    ensures Get(p, key, signature, paymentMethod, privateKeyEnv).path[..2] == "//"
  {
    SuccessIff(p, key, signature, paymentMethod, privateKeyEnv);
  }
}
