/**
 * The path classifier of the deposit pages: a route table, ordered keyword checks and a default,
 * its inverse from method to path, and the per-method page title and description.
 */
module PaymentRoutes {
  import opened Base
  import opened DepositTypes

  /** `PAYMENT_ROUTES`, in declaration order (the order `Object.entries` gives). */
  const PAYMENT_ROUTES: seq<(string, PaymentMethod)> := [
    ("/ewallet", EWallet),
    ("/e-wallet", EWallet),
    ("/vabank", VaBank),
    ("/va-bank", VaBank),
    ("/va", VaBank),
    ("/qris", Qris),
    ("/retail", Retail),
    ("/", All)
  ]

  /** `toLowerCase` on ASCII letters. */
  function ToLowerChar(c: char): char {
    if 'A' <= c <= 'Z' then (c as int + 32) as char else c
  }

  function ToLower(s: string): (r: string)
    ensures |r| == |s|
  {
    seq(|s|, i requires 0 <= i < |s| => ToLowerChar(s[i]))
  }

  predicate HasNoUpper(s: string) {
    forall i :: 0 <= i < |s| ==> !('A' <= s[i] <= 'Z')
  }

  lemma LowerHasNoUpper(s: string)
    ensures HasNoUpper(ToLower(s))
  {
  }

  /** Text without upper-case letters is its own lower case. */
  lemma ToLowerFixesLower(s: string)
    requires HasNoUpper(s)
    ensures ToLower(s) == s
  {
    assert forall i :: 0 <= i < |s| ==> ToLower(s)[i] == s[i];
  }

  lemma ToLowerIdempotent(s: string)
    ensures ToLower(ToLower(s)) == ToLower(s)
  {
    LowerHasNoUpper(s);
    ToLowerFixesLower(ToLower(s));
  }

  /** `sub` occurs in `s` starting at position `i`. */
  predicate OccursAt(s: string, sub: string, i: int) {
    0 <= i && i + |sub| <= |s| && s[i..i + |sub|] == sub
  }

  /** `s.includes(sub)`. */
  predicate Contains(s: string, sub: string) {
    exists i :: 0 <= i <= |s| && OccursAt(s, sub, i)
  }

  /** A text that lacks one of the characters of `sub` does not contain `sub`. */
  lemma MissingCharRulesOut(s: string, sub: string, k: nat)
    requires k < |sub| && sub[k] !in s
    ensures !Contains(s, sub)
  {
    forall i | 0 <= i <= |s|
      ensures !OccursAt(s, sub, i)
    {
      if i + |sub| <= |s| {
        assert s[i..i + |sub|][k] == s[i + k];
      }
    }
  }

  /** The position of the first entry whose path is `key`. */
  function KeyIndex(routes: seq<(string, PaymentMethod)>, key: string): (r: Option<nat>)
    ensures r.Some? ==> r.value < |routes| && routes[r.value].0 == key
    ensures r.Some? ==> forall j :: 0 <= j < r.value ==> routes[j].0 != key
    ensures r.None? ==> forall j :: 0 <= j < |routes| ==> routes[j].0 != key
  {
    if routes == [] then None
    else if routes[0].0 == key then Some(0)
    else
      match KeyIndex(routes[1..], key)
      case None => None
      case Some(i) => Some(i + 1)
  }

  /** The position of the first entry that maps to `m`. */
  function MethodIndex(routes: seq<(string, PaymentMethod)>, m: PaymentMethod): (r: Option<nat>)
    ensures r.Some? ==> r.value < |routes| && routes[r.value].1 == m
    ensures r.Some? ==> forall j :: 0 <= j < r.value ==> routes[j].1 != m
    ensures r.None? ==> forall j :: 0 <= j < |routes| ==> routes[j].1 != m
  {
    if routes == [] then None
    else if routes[0].1 == m then Some(0)
    else
      match MethodIndex(routes[1..], m)
      case None => None
      case Some(i) => Some(i + 1)
  }

  /** Own-key lookup in the table. */
  function RouteFor(path: string): Option<PaymentMethod> {
    match KeyIndex(PAYMENT_ROUTES, path)
    case None => None
    case Some(i) => Some(PAYMENT_ROUTES[i].1)
  }

  /** The keywords looked for in a path that is not a table key. */
  const KEYWORDS: set<string> := {"ewallet", "e-wallet", "vabank", "va-bank", "/va", "qris", "retail"}

  /** The keyword checks, in order, for a lower-cased path that is not a table key. */
  function KeywordMethod(normalizedPath: string): PaymentMethod {
    if Contains(normalizedPath, "ewallet") || Contains(normalizedPath, "e-wallet") then EWallet
    else if Contains(normalizedPath, "vabank") || Contains(normalizedPath, "va-bank") || Contains(normalizedPath, "/va") then VaBank
    else if Contains(normalizedPath, "qris") then Qris
    else if Contains(normalizedPath, "retail") then Retail
    else All
  }

  /** `getPaymentMethodFromPath` with the table read by own keys only (see the finding in README). */
  function GetPaymentMethodFromPath(pathname: string): PaymentMethod {
    var normalizedPath := ToLower(pathname);
    match RouteFor(normalizedPath)
    case Some(m) => m
    case None => KeywordMethod(normalizedPath)
  }

  /** `getPathFromPaymentMethod`: the first table key mapped to `m`, or "/" when there is none. */
  function GetPathFromPaymentMethod(m: PaymentMethod): string {
    match MethodIndex(PAYMENT_ROUTES, m)
    case None => "/"
    case Some(i) => PAYMENT_ROUTES[i].0
  }

  /** Every table key starts with "/", so a path that does not is no key. */
  lemma RouteNeedsLeadingSlash(path: string)
    requires path == [] || path[0] != '/'
    ensures RouteFor(path) == None
  {
    assert forall i :: 0 <= i < |PAYMENT_ROUTES| ==> PAYMENT_ROUTES[i].0[0] == '/';
  }

  lemma RouteKeysDistinct()
    ensures forall i, j :: 0 <= i < j < |PAYMENT_ROUTES| ==> PAYMENT_ROUTES[i].0 != PAYMENT_ROUTES[j].0
  {
  }

  lemma RouteKeysLower()
    ensures forall i :: 0 <= i < |PAYMENT_ROUTES| ==> HasNoUpper(PAYMENT_ROUTES[i].0)
  {
  }

  /** Classification ignores case: a path and its lower-case form are classified alike. */
  lemma ClassificationIgnoresCase(pathname: string)
    ensures GetPaymentMethodFromPath(ToLower(pathname)) == GetPaymentMethodFromPath(pathname)
  {
    ToLowerIdempotent(pathname);
  }

  /** A path whose lower case is a table key gets that entry's method. */
  lemma TableKeyWins(pathname: string, i: nat)
    requires i < |PAYMENT_ROUTES| && ToLower(pathname) == PAYMENT_ROUTES[i].0
    ensures GetPaymentMethodFromPath(pathname) == PAYMENT_ROUTES[i].1
  {
    RouteKeysDistinct();
    var k := KeyIndex(PAYMENT_ROUTES, ToLower(pathname));
    assert k.Some?;
    assert k.value == i;
  }

  /** A path that is no table key and names an e-wallet keyword is EWALLET whatever else it contains. */
  lemma EWalletKeywordWins(pathname: string)
    requires RouteFor(ToLower(pathname)) == None
    requires Contains(ToLower(pathname), "ewallet") || Contains(ToLower(pathname), "e-wallet")
    ensures GetPaymentMethodFromPath(pathname) == EWallet
  {
  }

  /**
   * The keyword checks run in order: without a key, the first group of keywords that the
   * lower-cased path contains decides the method.
   */
  lemma KeywordOrder(pathname: string)
    requires RouteFor(ToLower(pathname)) == None
    ensures var n := ToLower(pathname);
            var ewallet := Contains(n, "ewallet") || Contains(n, "e-wallet");
            var va := Contains(n, "vabank") || Contains(n, "va-bank") || Contains(n, "/va");
            && (ewallet ==> GetPaymentMethodFromPath(pathname) == EWallet)
            && (!ewallet && va ==> GetPaymentMethodFromPath(pathname) == VaBank)
            && (!ewallet && !va && Contains(n, "qris") ==> GetPaymentMethodFromPath(pathname) == Qris)
            && (!ewallet && !va && !Contains(n, "qris") && Contains(n, "retail") ==> GetPaymentMethodFromPath(pathname) == Retail)
  {
  }

  /** The keyword checks run in order: "ewallet" is found before "/va". */
  lemma EWalletCheckedBeforeVa()
    ensures GetPaymentMethodFromPath("/x/ewallet/va") == EWallet
  {
    var p := "/x/ewallet/va";
    ToLowerFixesLower(p);
    assert OccursAt(p, "ewallet", 3);
    assert RouteFor(p) == None;
  }

  /** A path with no key and none of the seven keywords falls through to ALL. */
  lemma UnknownPathIsAll(pathname: string)
    requires RouteFor(ToLower(pathname)) == None
    requires forall kw :: kw in KEYWORDS ==> !Contains(ToLower(pathname), kw)
    ensures GetPaymentMethodFromPath(pathname) == All
  {
  }

  /** "/home" is such a path. */
  lemma HomePathIsAll()
    ensures GetPaymentMethodFromPath("/home") == All
  {
    var p := "/home";
    ToLowerFixesLower(p);
    MissingCharRulesOut(p, "ewallet", 1);
    MissingCharRulesOut(p, "e-wallet", 1);
    MissingCharRulesOut(p, "vabank", 0);
    MissingCharRulesOut(p, "va-bank", 0);
    MissingCharRulesOut(p, "/va", 1);
    MissingCharRulesOut(p, "qris", 0);
    MissingCharRulesOut(p, "retail", 0);
  }

  /** Each method's path is its first key in declaration order. */
  lemma PathOfEachMethod(m: PaymentMethod)
    ensures GetPathFromPaymentMethod(m) == match m
      case EWallet => "/ewallet"
      case VaBank => "/vabank"
      case Qris => "/qris"
      case Retail => "/retail"
      case All => "/"
  {
    var k := MethodIndex(PAYMENT_ROUTES, m);
    match m
    case EWallet => assert PAYMENT_ROUTES[0].1 == m;
    case VaBank => assert PAYMENT_ROUTES[2].1 == m;
    case Qris => assert PAYMENT_ROUTES[5].1 == m;
    case Retail => assert PAYMENT_ROUTES[6].1 == m;
    case All => assert PAYMENT_ROUTES[7].1 == m;
  }

  /** Every method has a table key, so the "/" fallback of `getPathFromPaymentMethod` is never taken. */
  lemma EveryMethodHasKey(m: PaymentMethod)
    ensures MethodIndex(PAYMENT_ROUTES, m).Some?
  {
    match m
    case EWallet => assert PAYMENT_ROUTES[0].1 == m;
    case VaBank => assert PAYMENT_ROUTES[2].1 == m;
    case Qris => assert PAYMENT_ROUTES[5].1 == m;
    case Retail => assert PAYMENT_ROUTES[6].1 == m;
    case All => assert PAYMENT_ROUTES[7].1 == m;
  }

  /** The path of a method classifies back to the method. */
  lemma PathRoundTrip(m: PaymentMethod)
    ensures GetPaymentMethodFromPath(GetPathFromPaymentMethod(m)) == m
  {
    EveryMethodHasKey(m);
    var i := MethodIndex(PAYMENT_ROUTES, m).value;
    RouteKeysLower();
    ToLowerFixesLower(PAYMENT_ROUTES[i].0);
    TableKeyWins(PAYMENT_ROUTES[i].0, i);
  }

  // ---------------------------------------------------------------------------------------------
  // The table as JavaScript reads it

  /**
   * `PAYMENT_ROUTES[p]` on an object literal also answers the members inherited from
   * `Object.prototype`. After lower-casing only two of their names can occur.
   */
  const INHERITED_LOWERCASE_MEMBERS: set<string> := {"constructor", "__proto__"}

  /** What the lookup returns as written: a table entry, or an inherited function or object. */
  datatype LookupResult = RouteMethod(m: PaymentMethod) | InheritedMember(name: string)

  /** `getPaymentMethodFromPath` as written: an inherited member is truthy and is returned. */
  function GetPaymentMethodFromPathAsWritten(pathname: string): LookupResult {
    var normalizedPath := ToLower(pathname);
    match RouteFor(normalizedPath)
    case Some(m) => RouteMethod(m)
    case None =>
      if normalizedPath in INHERITED_LOWERCASE_MEMBERS then InheritedMember(normalizedPath)
      else RouteMethod(KeywordMethod(normalizedPath))
  }

  /** As written, the path "constructor" (in any case) returns `Object`, not a payment method. */
  lemma PrototypeMemberEscapesAsWritten()
    ensures GetPaymentMethodFromPathAsWritten("Constructor") == InheritedMember("constructor")
    ensures GetPaymentMethodFromPathAsWritten("__proto__") == InheritedMember("__proto__")
  {
    LowerConstructor();
    ToLowerFixesLower("__proto__");
  }

  /** Away from those two names, the code as written and the own-key reading agree. */
  lemma AsWrittenAgreesElsewhere(pathname: string)
    requires ToLower(pathname) !in INHERITED_LOWERCASE_MEMBERS
    ensures GetPaymentMethodFromPathAsWritten(pathname) == RouteMethod(GetPaymentMethodFromPath(pathname))
  {
  }

  lemma LowerConstructor()
    ensures ToLower("Constructor") == "constructor"
  {
    var c := "Constructor";
    forall i | 0 <= i < |c|
      ensures ToLower(c)[i] == "constructor"[i]
    {
    }
  }

  /** Read by own keys, "constructor" and "__proto__" match no key and no keyword, and give ALL. */
  lemma PrototypeNamesAreAll()
    ensures GetPaymentMethodFromPath("Constructor") == All
    ensures GetPaymentMethodFromPath("__proto__") == All
  {
    ConstructorIsAll();
    ProtoIsAll();
  }

  lemma ConstructorIsAll()
    ensures GetPaymentMethodFromPath("Constructor") == All
  {
    var c := "constructor";
    LowerConstructor();
    RouteNeedsLeadingSlash(c);
    ConstructorHasNoKeyword();
  }

  lemma ConstructorHasNoKeyword()
    ensures KeywordMethod("constructor") == All
  {
    var c := "constructor";
    MissingCharRulesOut(c, "ewallet", 1);
    MissingCharRulesOut(c, "e-wallet", 1);
    MissingCharRulesOut(c, "vabank", 0);
    MissingCharRulesOut(c, "va-bank", 0);
    MissingCharRulesOut(c, "/va", 0);
    MissingCharRulesOut(c, "qris", 0);
    MissingCharRulesOut(c, "retail", 5);
  }

  lemma ProtoIsAll()
    ensures GetPaymentMethodFromPath("__proto__") == All
  {
    var q := "__proto__";
    ToLowerFixesLower(q);
    RouteNeedsLeadingSlash(q);
    ProtoHasNoKeyword();
  }

  lemma ProtoHasNoKeyword()
    ensures KeywordMethod("__proto__") == All
  {
    var q := "__proto__";
    MissingCharRulesOut(q, "ewallet", 1);
    MissingCharRulesOut(q, "e-wallet", 1);
    MissingCharRulesOut(q, "vabank", 0);
    MissingCharRulesOut(q, "va-bank", 0);
    MissingCharRulesOut(q, "/va", 0);
    MissingCharRulesOut(q, "qris", 0);
    MissingCharRulesOut(q, "retail", 1);
  }

  // ---------------------------------------------------------------------------------------------
  // Page text

  function TitleEntry(m: PaymentMethod): string {
    match m
    case EWallet => "Deposit via E-Wallet"
    case VaBank => "Deposit via Virtual Account"
    case Qris => "Deposit via QRIS"
    case Retail => "Deposit via Retail Outlet"
    case All => "Deposit Saldo"
  }

  /** `getPageTitle`: the table entry, or "Deposit Saldo" for a falsy entry. */
  function GetPageTitle(m: PaymentMethod): string {
    if TitleEntry(m) != "" then TitleEntry(m) else "Deposit Saldo"
  }

  function DescriptionEntry(m: PaymentMethod): string {
    match m
    case EWallet => "Deposit saldo menggunakan E-Wallet seperti OVO, DANA, ShopeePay, dan lainnya"
    case VaBank => "Deposit saldo menggunakan Virtual Account BCA, BNI, BRI, MANDIRI, dan lainnya"
    case Qris => "Deposit saldo menggunakan QRIS - scan QR code untuk pembayaran"
    case Retail => "Deposit saldo melalui gerai retail seperti Alfamart dan Indomaret"
    case All => "Deposit saldo dengan berbagai metode pembayaran melalui Xendit"
  }

  /** `getPageDescription`: the table entry, or a generic text for a falsy entry. */
  function GetPageDescription(m: PaymentMethod): string {
    if DescriptionEntry(m) != "" then DescriptionEntry(m) else "Deposit saldo dengan berbagai metode pembayaran"
  }

  /** Every method has a non-empty title and description, so the fallbacks are never used. */
  lemma PageTextNeverFallsBack(m: PaymentMethod)
    ensures GetPageTitle(m) == TitleEntry(m) != ""
    ensures GetPageDescription(m) == DescriptionEntry(m) != ""
  {
  }

  /** Different methods get different titles: the title names the method. */
  lemma PageTitlesDistinct(m: PaymentMethod, n: PaymentMethod)
    requires GetPageTitle(m) == GetPageTitle(n)
    ensures m == n
  {
    PageTextNeverFallsBack(m);
    PageTextNeverFallsBack(n);
    assert |TitleEntry(m)| == |TitleEntry(n)|;
  }

  lemma DescriptionShapes()
    ensures |DescriptionEntry(EWallet)| == 76 && |DescriptionEntry(VaBank)| == 77
    ensures |DescriptionEntry(Qris)| == 62 && |DescriptionEntry(Retail)| == 65 && |DescriptionEntry(All)| == 62
    ensures DescriptionEntry(Qris)[61] == 'n' && DescriptionEntry(All)[61] == 't'
  {
  }

  /** Different methods get different descriptions. */
  lemma PageDescriptionsDistinct(m: PaymentMethod, n: PaymentMethod)
    requires GetPageDescription(m) == GetPageDescription(n)
    ensures m == n
  {
    PageTextNeverFallsBack(m);
    PageTextNeverFallsBack(n);
    DescriptionShapes();
    var d := DescriptionEntry(m);
    assert |d| == |DescriptionEntry(n)| && (|d| == 62 ==> d[61] == DescriptionEntry(n)[61]);
  }
}
