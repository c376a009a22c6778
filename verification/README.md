# Deposit portal core: token decoding, payment routing, fees and form validation

This project models the core of a Next.js deposit portal for an OtomaX reseller system.

An agent arrives at `/api/auth/decode?key=…&signature=…&paymentMethod=…` with an encrypted token. The server checks it as follows:

1. It base64-decodes a configured blob (`DECRYPT_PRIVATE_KEY`).
2. It cuts the blob into an IV (16 bytes), an HMAC tag (64 bytes) and a ciphertext.
3. It decrypts the ciphertext with AES-256-CBC under the caller's key.
4. It checks the tag against eight candidate HMAC-SHA3-512 values: four derived keys, each with two pad lengths.
5. It RSA-OAEP-decrypts the signature with the PEM text recovered in step 3.
6. It reads `idagen` (or else `idmember`) from the resulting JSON.
7. It redirects to `/<paymentMethod>/<idagen>`, or to `/not-found` on any failure.

The portal then:

- classifies a path into one of five payment methods;
- computes the fee of a deposit from a configuration or a fallback table;
- formats phone numbers;
- validates the deposit form.

Modules, one file each:

- `Base`: Option, bytes, ASCII digits.
- `Json`: parsed JSON values, truthiness, `String(...)`.
- `Platform`: the cryptographic and runtime primitives as parameters.
- `Hex`: hex text and its ASCII bytes.
- `KeyedHash`: the hand-written HMAC.
- `Decryption`: `decrypt` and `extractIdAgen`.
- `DecodeRoute`: the GET handler.
- `DepositTypes`, `FeeTypes`: the records.
- `PaymentRoutes`: path classification and page text.
- `Utils`: `calculateFee`, `formatPhoneNumber`.
- `Validation`: the form schema.

The HMAC helpers work in place on freshly allocated buffers. They are one imperative method with a loop invariant, proved equal to a functional definition. The tag cascade is a method proved to return the first matching candidate. `Decrypt` is a method proved equal to the function `DecryptOutcome`, and the route and the lemmas reason through that function. Everything else is pure and is modelled with functions and lemmas.

## Model

| member | source | states |
|---|---|---|
| KeyedHash.ComputeHmac | lib/decrypt.ts:12-40 | filling both pads byte by byte (key byte XOR mask, then the mask past the key) and hashing twice yields exactly H(oKeyPad ++ H(iKeyPad ++ data)), with a key longer than the pad replaced by its digest |
| KeyedHash.PadKey | lib/decrypt.ts:18 | the key used for the pads: the SHA3-512 digest of a key longer than the pad, otherwise the key itself (see ShortKeyUsedAsIs, LongKeyReplacedByDigest) |
| KeyedHash.KeyPad | lib/decrypt.ts:23-31 | a pad is exactly pad-length bytes: key byte XOR mask below the key length, the mask after (see KeyPadCarriesKey) |
| KeyedHash.Hmac | lib/decrypt.ts:33-39 | the reference construction H(oKeyPad ++ H(iKeyPad ++ data)) that ComputeHmac is proved to compute |
| KeyedHash.HmacPadIsKeyPad | lib/decrypt.ts:18-31 | the pads the helpers fill from the caller's key are the pads of the key after the long-key replacement |
| KeyedHash.HmacSha3512 | lib/decrypt.ts:12-40 | the rate-136 helper is the HMAC construction with 136-byte pads |
| KeyedHash.HmacSha3512Block72 | lib/decrypt.ts:45-65 | the block-72 helper is the same construction with 72-byte pads |
| KeyedHash.KeyPadCarriesKey | lib/decrypt.ts:23-31 | removing the mask from a pad's first key-length bytes gives the key back; every later pad byte is the mask |
| KeyedHash.InnerOuterPadsDiffer | lib/decrypt.ts:23-31 | the inner and outer pads differ in every byte for every key |
| KeyedHash.ShortKeyUsedAsIs | lib/decrypt.ts:18 | a key no longer than the pad is used unchanged |
| KeyedHash.LongKeyReplacedByDigest | lib/decrypt.ts:18 | a key longer than the pad gives the same tag as its SHA3-512 digest |
| KeyedHash.TrailingZeroKeyCollides | lib/decrypt.ts:23-31 | a key shorter than the pad and the same key with a zero byte appended give the same tag |
| KeyedHash.RatePadExtendsBlockPad | lib/decrypt.ts:12-65 | for keys up to 72 bytes the 136-byte pad is the 72-byte pad followed by 64 mask bytes |
| Hex.HexString | lib/decrypt.ts:101 | `digest('hex')` gives two ASCII characters per byte |
| Hex.HexRoundTrip | lib/decrypt.ts:101 | reading the hex text back gives the original bytes |
| Hex.HexStringAppend | lib/decrypt.ts:101 | the hex text of a concatenation is the concatenation of hex texts |
| Hex.HexPrefixKey | lib/decrypt.ts:203 | the first 64 bytes of a digest's hex text are the hex text of its first 32 bytes |
| Decryption.SplitEnvelope | lib/decrypt.ts:124-128 | the three slices concatenate back to the blob; the IV is min(16, n) bytes and the tag min(64, rest) bytes; with at least 80 bytes they are the exact fixed-offset slices |
| Decryption.SplitJoinedEnvelope | lib/decrypt.ts:124-128 | splitting IV ++ tag ++ ciphertext with a 16-byte IV and a 64-byte tag returns the three parts |
| Decryption.TimingSafeEqual | lib/decrypt.ts:161 | the comparison throws exactly when the lengths differ and otherwise answers equality |
| Decryption.CandidateKeys | lib/decrypt.ts:101-223 | the four keys in cascade order: the auth key's SHA-512 digest, the base64 reading of its hex text, the first 64 bytes of that hex text, and the auth key itself |
| Decryption.CandidateTags | lib/decrypt.ts:148-223 | the eight candidate tags in cascade order: each candidate key with 136-byte pads, then with 72-byte pads |
| Decryption.HexCandidateKeyUsesHalfDigest | lib/decrypt.ts:201-205 | the third candidate key is the ASCII hex text of only the first 32 bytes of the auth key's digest |
| Decryption.VerifyTag | lib/decrypt.ts:145-263 | the cascade throws exactly when the tag is not 64 bytes; it fails exactly when the tag is none of the eight candidates; otherwise it reports the first candidate equal to the tag and the tag itself |
| Decryption.Decrypt | lib/decrypt.ts:75-280 | the step-by-step decryption (base64, split, AES, tag cascade, RSA, with every throw caught as null) returns exactly the specification outcome |
| Decryption.DecryptOutcome | lib/decrypt.ts:75-280 | the specification of `decrypt`: null unless AES succeeds, the tag is 64 bytes and among the candidates, and RSA succeeds; then the UTF-8 plaintext (see DecryptSomeIff) |
| Decryption.DecryptSomeIff | lib/decrypt.ts:137-275 | the result is non-null exactly when AES succeeds, the tag is a candidate and RSA succeeds, and it is then the UTF-8 text of the RSA plaintext |
| Decryption.RsaFailureIsNull | lib/decrypt.ts:267-279 | a failing RSA step gives null even after AES succeeded |
| Decryption.DecryptAcceptsOnlyCandidateTags | lib/decrypt.ts:124-263 | a non-null result needs a blob of at least 80 bytes, a successful AES step and a tag among the candidates |
| Decryption.ShortEnvelopeIsNull | lib/decrypt.ts:124-161 | a blob shorter than 80 bytes always gives null |
| Decryption.AesFailureIsNull | lib/decrypt.ts:137-139 | a failing AES step gives null whatever the tag |
| Decryption.UnmatchedTagNeverReachesRsa | lib/decrypt.ts:245-275 | with no matching candidate the result is null for every RSA implementation |
| Decryption.DecryptSucceeds | lib/decrypt.ts:265-275 | when AES succeeds, a candidate matches and RSA succeeds, the result is the UTF-8 text of the RSA plaintext |
| Decryption.FirstTruthyField | lib/decrypt.ts:300-320 | the ordered field search returns the value of the first listed field that is present and truthy (no earlier one is), or nothing when none is |
| Decryption.ExtractIsOrderedFieldSearch | lib/decrypt.ts:289-325 | `extractIdAgen` is the ordered search over idagen, idmember on a parsed object followed by `String()` of the value found (null if that throws), and null for anything else |
| Decryption.ExtractSomeIff | lib/decrypt.ts:289-325 | an id comes back exactly when the text parses to an object whose truthy idagen converts, or which has no truthy idagen and a truthy idmember that converts; a throwing idagen is not passed over for idmember |
| Decryption.IdagenTakesPrecedence | lib/decrypt.ts:300-306 | a truthy idagen decides the result whatever idmember holds: its `String()`, and null exactly when that conversion throws |
| Decryption.OwnToStringIdIsNull | lib/decrypt.ts:300-323 | an idagen object with its own "toString" member gives null through the catch even when idmember is usable |
| Decryption.EmptyArrayIdIsEmptyString | lib/decrypt.ts:300-306 | an empty-array idagen is truthy but converts to the empty string |
| Decryption.ExtractIdAgen | lib/decrypt.ts:289-325 | `extractIdAgen`: the coerced truthy idagen, else the coerced truthy idmember, of a parsed object; null for unparseable text, non-objects and objects with neither (see ExtractIsOrderedFieldSearch, ExtractSomeIff) |
| Json.Truthy | lib/decrypt.ts:301 | JavaScript truthiness of a parsed value: null, false, 0 and "" are falsy; arrays and objects are truthy |
| Json.JsString | lib/decrypt.ts:305 | `String(v)` of a parsed value throws exactly when the value is, or holds through arrays, an object with its own "toString" member (ConversionThrows); a string converts to itself; arrays join with "," (null elements as ""), other objects give "[object Object]" |
| DecodeRoute.MissingParameterSkipsDecrypt | app/api/auth/decode/route.ts:19-26 | a missing or empty key, signature or paymentMethod redirects to /not-found independently of the primitives |
| DecodeRoute.MissingConfigurationSkipsDecrypt | app/api/auth/decode/route.ts:28-33 | an unset or empty DECRYPT_PRIVATE_KEY redirects to /not-found independently of the primitives |
| DecodeRoute.SuccessIff | app/api/auth/decode/route.ts:17-54 | the handler leaves /not-found exactly when every parameter and the configuration are present, decryption gives non-empty text and an id is found, and then redirects to /paymentMethod/idagen |
| DecodeRoute.SuccessPathIsNotNotFound | app/api/auth/decode/route.ts:47-49 | a success path as built (before `new URL` normalises it) never equals /not-found |
| DecodeRoute.EmptyPlaintextRejected | app/api/auth/decode/route.ts:37-39 | an empty decrypted text is rejected before the id is read |
| DecodeRoute.SlashSegmentGivesSchemeRelativePath | app/api/auth/decode/route.ts:47-49 | a payment method segment that starts with "/" makes a successful redirect path that starts with "//" |
| DecodeRoute.Get | app/api/auth/decode/route.ts:17-54 | the handler: the parameter guard, the configuration guard, `decrypt`, the empty-text check, `extractIdAgen`, the empty-id check, then the redirect (see SuccessIff) |
| DepositTypes.ParseNameRoundTrip | types/deposit.ts:1 | the five wire names parse back to their methods and nothing else parses |
| PaymentRoutes.KeyIndex | lib/payment-routes.ts:25-27 | the table lookup finds the first entry whose path is the key, or reports that none has it |
| PaymentRoutes.MethodIndex | lib/payment-routes.ts:51-53 | `find` on the entries returns the first entry mapped to the method, or none |
| PaymentRoutes.ToLowerIdempotent | lib/payment-routes.ts:22 | lower-casing twice is lower-casing once |
| PaymentRoutes.MissingCharRulesOut | lib/payment-routes.ts:30-41 | a path that lacks a character of a keyword does not include the keyword |
| PaymentRoutes.RouteNeedsLeadingSlash | lib/payment-routes.ts:6-15 | a path that does not start with "/" is no table key |
| PaymentRoutes.RouteKeysDistinct | lib/payment-routes.ts:6-15 | the table keys are pairwise distinct |
| PaymentRoutes.RouteKeysLower | lib/payment-routes.ts:6-15 | the table keys hold no upper-case letters, so lower-cased paths can reach every one |
| PaymentRoutes.ClassificationIgnoresCase | lib/payment-routes.ts:20-45 | a path and its lower-case form are classified alike |
| PaymentRoutes.TableKeyWins | lib/payment-routes.ts:24-27 | a path whose lower case is a table key gets that entry's method before any keyword check |
| PaymentRoutes.KeywordMethod | lib/payment-routes.ts:29-44 | the keyword checks in order: e-wallet, virtual account, QRIS, retail, else ALL |
| PaymentRoutes.EWalletKeywordWins | lib/payment-routes.ts:29-32 | a non-key path that contains "ewallet" or "e-wallet" is EWALLET whatever else it contains |
| PaymentRoutes.KeywordOrder | lib/payment-routes.ts:29-41 | for a non-key path the first keyword group it contains decides the method, in the order e-wallet, virtual account, QRIS, retail |
| PaymentRoutes.EWalletCheckedBeforeVa | lib/payment-routes.ts:30-35 | the keyword checks are ordered: "/x/ewallet/va" is EWALLET, not VA_BANK |
| PaymentRoutes.UnknownPathIsAll | lib/payment-routes.ts:43-44 | every path whose lower case is no table key and contains none of the seven keywords is ALL |
| PaymentRoutes.HomePathIsAll | lib/payment-routes.ts:43-44 | the example "/home" is ALL |
| PaymentRoutes.GetPaymentMethodFromPath | lib/payment-routes.ts:20-45 | the classifier with an own-key table lookup: lower-case, table key, keywords, ALL (see TableKeyWins, KeywordOrder, UnknownPathIsAll, PathRoundTrip) |
| PaymentRoutes.GetPathFromPaymentMethod | lib/payment-routes.ts:50-55 | the first table key mapped to the method, or "/" (see PathOfEachMethod, PathRoundTrip) |
| PaymentRoutes.PathOfEachMethod | lib/payment-routes.ts:50-55 | each method maps to its first key in declaration order (/ewallet, /vabank, /qris, /retail, /) |
| PaymentRoutes.EveryMethodHasKey | lib/payment-routes.ts:50-55 | every method has a key, so the "/" fallback is never taken |
| PaymentRoutes.PathRoundTrip | lib/payment-routes.ts:20-55 | classifying the path of a method gives the method back |
| PaymentRoutes.PrototypeMemberEscapesAsWritten | lib/payment-routes.ts:25-27 | as written, "Constructor" and "__proto__" return an inherited object member instead of a payment method |
| PaymentRoutes.GetPaymentMethodFromPathAsWritten | lib/payment-routes.ts:20-45 | the classifier as written, where the table lookup also answers the inherited members "constructor" and "__proto__" |
| PaymentRoutes.AsWrittenAgreesElsewhere | lib/payment-routes.ts:20-45 | for every other path the code as written and the own-key lookup agree |
| PaymentRoutes.PrototypeNamesAreAll | lib/payment-routes.ts:20-45 | with an own-key lookup those two paths classify as ALL |
| PaymentRoutes.PageTextNeverFallsBack | lib/payment-routes.ts:60-83 | every method has a non-empty title and description, so the fallback texts are never used |
| PaymentRoutes.GetPageTitle | lib/payment-routes.ts:60-69 | the title of each method, with "Deposit Saldo" for a falsy entry |
| PaymentRoutes.GetPageDescription | lib/payment-routes.ts:74-83 | the description of each method, with a generic text for a falsy entry |
| PaymentRoutes.PageTitlesDistinct | lib/payment-routes.ts:60-69 | distinct methods get distinct page titles |
| PaymentRoutes.PageDescriptionsDistinct | lib/payment-routes.ts:74-83 | distinct methods get distinct page descriptions |
| Utils.StaticFeeIgnoresAmount | lib/utils.ts:48-53 | a configured 'static' entry gives its value for every amount |
| Utils.PercentageFee | lib/utils.ts:54-56 | a configured 'percentage' entry gives round(amount × value) |
| Utils.FallbackFees | lib/utils.ts:30-36 | without a usable entry, VA_BANK and RETAIL pay 2500, QRIS round(amount × 0.01) and EWALLET round(amount × 0.015) |
| Utils.AllPaysNoFee | lib/utils.ts:41-65 | ALL has neither a configuration key nor a fallback entry and always pays 0 |
| Utils.CalculateFee | lib/utils.ts:25-66 | `calculateFee`: a configured static or percentage entry, else the fallback table, else 0 (see the four fee lemmas) |
| Utils.Filter | lib/utils.ts:70 | every kept character satisfies the test, and there are no more of them than input characters |
| Utils.FilterAppend | lib/utils.ts:70 | removing characters distributes over concatenation |
| Utils.Digits | lib/utils.ts:70 | `replace(/\D/g, '')`: the ASCII digits of the text, in order |
| Utils.FormatPhoneNumber | lib/utils.ts:68-77 | the digits grouped 4-4-4 with two hyphens from four digits on, else the digits alone (see the three format lemmas) |
| Utils.FormatKeepsLeadingDigits | lib/utils.ts:68-77 | the output holds only digits and hyphens; without its hyphens it is the first min(12, n) digits of the input |
| Utils.FormatHyphenCount | lib/utils.ts:68-77 | exactly two hyphens are added when there are at least four digits; otherwise the digits come back unchanged |
| Utils.FormatIdempotent | lib/utils.ts:68-77 | formatting a formatted number changes nothing |
| Validation.PreprocessAmount | lib/validation.ts:12-17 | the preprocess step: "", null, undefined, NaN, a non-string non-number and text that `parseFloat` cannot read give undefined (see UnusableAmountIsRequired) |
| Validation.UnusableAmountIsRequired | lib/validation.ts:12-22 | an amount that preprocesses to undefined ("", null, undefined, NaN, a non-string non-number, or unreadable text) is reported as required and makes the form invalid, and a usable number is never reported as required |
| Validation.AmountIssues | lib/validation.ts:18-25 | the amount issues in schema order: required alone for a missing number, else below-minimum, above-maximum and not-positive as they apply (see AmountAcceptedIff) |
| Validation.AmountAcceptedIff | lib/validation.ts:18-25 | the amount is accepted exactly when it is a number within both limits and positive |
| Validation.AmountIssuesShape | lib/validation.ts:18-25 | a missing amount reports only that it is required; a present one never does; each issue appears at most once |
| Validation.PositivityImpliedByMinimum | lib/validation.ts:22-25 | with a positive minimum the positivity refinement never fails alone |
| Validation.NonPositiveReportsTwice | lib/validation.ts:22-25 | a non-positive amount under the default limits reports both the minimum and the positivity issue, in that order |
| Validation.PhonePatternIff | lib/validation.ts:31 | the pattern ^08\d{9,11}$ holds exactly for "08" followed by nine to eleven digits, i.e. 11 to 13 characters |
| Validation.PhoneAcceptedIff | lib/validation.ts:27-33 | a non-empty phone number is accepted exactly when it matches the pattern, and then has 11 to 13 characters |
| Validation.PhoneNumberValid | lib/validation.ts:27-33 | the optional phone number passes when absent, empty, or matching the pattern (see PhoneAcceptedIff) |
| Validation.PhoneHintExamples | components/deposit/PhoneInput.tsx:27 | the hint promises 10–12 digits, but a 10-digit number is refused and a 13-digit one accepted |
| Validation.PaymentMethodIssues | lib/validation.ts:34-36 | a missing method is required, a string other than the five names is invalid |
| Validation.FormIssues | lib/validation.ts:9-37 | all field issues, amount then phone number then payment method (see ValidateIff) |
| Validation.ValidateDepositForm | lib/validation.ts:9-37 | an invalid form always reports at least one issue |
| Validation.ValidateIff | lib/validation.ts:9-37 | the form is valid exactly when the amount, phone number and payment method each are; the parsed data then holds the preprocessed amount, the phone number as given and the named method |

## Left out

- Cryptography and runtime calls are uninterpreted parameters of `Platform.Primitives`, so nothing about AES, RSA, SHA-512, SHA3-512, base64, UTF-8 or `JSON.parse` themselves is modelled. This covers SHA-512, SHA3-512, base64 and UTF-8 decoding, AES-256-CBC, RSA-OAEP and `JSON.parse`. A call that can throw returns `None`.
- The constant-time behaviour of `crypto.timingSafeEqual` is not modelled; only its result and its throw on a length mismatch are.
- Logging (`console.log`/`console.error`, the `shouldLog` switch) is left out because it has no effect on results.
- Redirect URLs are reduced to their path. Resolution against the request URL and normalisation by `new URL` are not modelled, so dot segments are not removed: the paymentMethod "." with the id "not-found" builds "/./not-found", which resolves to /not-found. A path starting with "//" is read as a host and path: a valid host there redirects to another site, and `DecodeRoute.SlashSegmentGivesSchemeRelativePath` only shows that such paths arise.
- `DecodeRoute.Get`, `DecodeRoute.SuccessIff`: when `new URL` throws on the success path (for example a paymentMethod of "/a b" or "/[", whose text after "//" is no valid host), the catch at app/api/auth/decode/route.ts:50-53 redirects to /not-found. The model returns the success path there, so SuccessIff's "exactly when" does not cover those inputs.
- `Json`: numbers are integers, so the decimal formatting of fractional JSON numbers by `String(...)` is not modelled.
- `Json.JsString`: every integer is printed in full decimal. JavaScript prints integers of magnitude 10^21 or more in exponent form ("1e+21"), and integers above 2^53 lose precision when parsed, so numeric ids of that size differ from the model.
- `PaymentRoutes.ToLower`: `toLowerCase` is modelled on ASCII letters only.
- `Utils.CalculateFee`: floating-point products and `Math.round` are one uninterpreted parameter `roundTimes(amount, x)`. The fee results are reals. Infinities and NaN amounts are not modelled.
- `Validation.PreprocessAmount`: `parseFloat` is a parameter; `Infinity` and `-0` are not modelled.
- `Validation`: MIN_AMOUNT and MAX_AMOUNT come from the environment, so the limits are a parameter. `DEFAULT_LIMITS` holds the defaults 10000 and 100000000.
- `Validation.RawDepositForm`: a phone number or payment method that is not a string is not modelled. Error message texts are represented by issue constructors, so `formatCurrency` is not modelled.
- `extractDecryptedData` (lib/decrypt.ts:333-340) is a bare `JSON.parse` wrapper that the route does not use. It is not part of this model.
- The pages, components, contexts, hooks, middleware, the proxy routes to the backend API, token storage and `cn` are not part of this model.

## Findings

| source | as written | input that shows it | evidently intended | confidence | as-written member | corrected member |
|---|---|---|---|---|---|---|
| lib/payment-routes.ts:25-27 | `PAYMENT_ROUTES[normalizedPath]` on an object literal also finds members inherited from `Object.prototype`, which are truthy and are returned | pathname "Constructor" (or "__proto__") returns the `Object` constructor (or `Object.prototype`) typed as a PaymentMethod | only the table's own keys match, so both paths fall through the keyword checks to ALL | not executed | PaymentRoutes.PrototypeMemberEscapesAsWritten | PaymentRoutes.PrototypeNamesAreAll |
