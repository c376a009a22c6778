/** Fee selection for a deposit and the display formatting of a phone number. */
module Utils {
  import opened Base
  import opened DepositTypes
  import opened FeeTypes

  // ---------------------------------------------------------------------------------------------
  // calculateFee

  /** The flat fallback fee of VA_BANK and RETAIL. */
  const FLAT_FALLBACK_FEE: int := 2500
  /** The fallback rates of QRIS (1%) and EWALLET (1.5%). */
  const QRIS_FALLBACK_RATE: real := 0.01
  const EWALLET_FALLBACK_RATE: real := 0.015

  /** An entry of the hard-coded fallback table: a number, or a function of the amount. */
  datatype FallbackFee = FlatFee(fee: int) | RateFee(rate: real)

  /** `fallbackFees[paymentMethod]`; the table has no ALL entry. */
  function FallbackFeeFor(m: PaymentMethod): Option<FallbackFee> {
    match m
    case VaBank => Some(FlatFee(FLAT_FALLBACK_FEE))
    case Retail => Some(FlatFee(FLAT_FALLBACK_FEE))
    case Qris => Some(RateFee(QRIS_FALLBACK_RATE))
    case EWallet => Some(RateFee(EWALLET_FALLBACK_RATE))
    case All => None
  }

  /** `feesConfig[methodKeyMap[paymentMethod]]`; the key map has no ALL entry, so ALL reads nothing. */
  function ConfigEntry(fees: FeesResponse, m: PaymentMethod): Option<FeeConfig> {
    match m
    case VaBank => fees.vaBank
    case Retail => fees.retail
    case Qris => fees.qris
    case EWallet => fees.ewallet
    case All => None
  }

  /**
   * `calculateFee`. `roundTimes(a, x)` stands for `Math.round(a * x)` evaluated in floating point.
   * A configured 'static' entry gives its value, a 'percentage' entry the rounded product; otherwise
   * the fallback table decides, and a method without a fallback pays 0.
   */
  function CalculateFee(amount: int, m: PaymentMethod, feesConfig: Option<FeesResponse>,
                        roundTimes: (int, real) -> int): real
  {
    var feeConfig := if feesConfig.Some? then ConfigEntry(feesConfig.value, m) else None;
    if feeConfig.Some? && feeConfig.value.feeType == Static then feeConfig.value.value
    else if feeConfig.Some? && feeConfig.value.feeType == Percentage then roundTimes(amount, feeConfig.value.value) as real
    else
      match FallbackFeeFor(m)
      case Some(RateFee(rate)) => roundTimes(amount, rate) as real
      case Some(FlatFee(fee)) => fee as real
      case None => 0.0
  }

  /** Whether a configured entry decides the fee. */
  predicate Configured(m: PaymentMethod, feesConfig: Option<FeesResponse>) {
    feesConfig.Some? && ConfigEntry(feesConfig.value, m).Some?
    && ConfigEntry(feesConfig.value, m).value.feeType in {Static, Percentage}
  }

  /** A 'static' entry gives its value whatever the amount. */
  lemma StaticFeeIgnoresAmount(a: int, b: int, m: PaymentMethod, fees: FeesResponse, roundTimes: (int, real) -> int)
    requires ConfigEntry(fees, m).Some? && ConfigEntry(fees, m).value.feeType == Static
    ensures CalculateFee(a, m, Some(fees), roundTimes) == CalculateFee(b, m, Some(fees), roundTimes)
                                                      == ConfigEntry(fees, m).value.value
  {
  }

  /** A 'percentage' entry gives round(amount * value). */
  lemma PercentageFee(amount: int, m: PaymentMethod, fees: FeesResponse, roundTimes: (int, real) -> int)
    requires ConfigEntry(fees, m).Some? && ConfigEntry(fees, m).value.feeType == Percentage
    ensures CalculateFee(amount, m, Some(fees), roundTimes) == roundTimes(amount, ConfigEntry(fees, m).value.value) as real
  {
  }

  /** Unconfigured, VA_BANK and RETAIL pay the flat 2500, QRIS and EWALLET a rounded 1% and 1.5%. */
  lemma FallbackFees(amount: int, m: PaymentMethod, feesConfig: Option<FeesResponse>, roundTimes: (int, real) -> int)
    requires !Configured(m, feesConfig)
    ensures m == VaBank || m == Retail ==> CalculateFee(amount, m, feesConfig, roundTimes) == 2500.0
    ensures m == Qris ==> CalculateFee(amount, m, feesConfig, roundTimes) == roundTimes(amount, 0.01) as real
    ensures m == EWallet ==> CalculateFee(amount, m, feesConfig, roundTimes) == roundTimes(amount, 0.015) as real
  {
  }

  /** ALL has neither a configuration key nor a fallback: its fee is 0 in every case. */
  lemma AllPaysNoFee(amount: int, feesConfig: Option<FeesResponse>, roundTimes: (int, real) -> int)
    ensures CalculateFee(amount, All, feesConfig, roundTimes) == 0.0
  {
  }

  // ---------------------------------------------------------------------------------------------
  // formatPhoneNumber

  /** The characters of `s` that satisfy `keep`, in order. */
  function Filter(s: string, keep: char -> bool): (r: string)
    ensures |r| <= |s|
    ensures forall i :: 0 <= i < |r| ==> keep(r[i])
    decreases |s|
  {
    if s == [] then [] else (if keep(s[0]) then [s[0]] else []) + Filter(s[1..], keep)
  }

  lemma {:induction false} FilterAppend(a: string, b: string, keep: char -> bool)
    ensures Filter(a + b, keep) == Filter(a, keep) + Filter(b, keep)
    decreases |a|
  {
    if a == [] {
      assert a + b == b;
    } else {
      assert (a + b)[1..] == a[1..] + b;
      FilterAppend(a[1..], b, keep);
    }
  }

  lemma {:induction false} FilterKeepsAll(s: string, keep: char -> bool)
    requires forall i :: 0 <= i < |s| ==> keep(s[i])
    ensures Filter(s, keep) == s
    decreases |s|
  {
    if s != [] {
      FilterKeepsAll(s[1..], keep);
    }
  }

  /** `phone.replace(/\D/g, '')`. */
  function Digits(s: string): (d: string)
    ensures AllDigits(d)
  {
    Filter(s, IsDigit)
  }

  predicate NotHyphen(c: char) {
    c != '-'
  }

  /** `s.slice(start, end)` for 0 <= start <= end: both ends clamped to the text. */
  function Slice(s: string, start: nat, end: nat): string
    requires start <= end
  {
    s[Min(start, |s|)..Min(end, |s|)]
  }

  /** `formatPhoneNumber`: the digits, grouped 4-4-4 with two hyphens once there are at least four. */
  function FormatPhoneNumber(phone: string): string {
    var digits := Digits(phone);
    if |digits| >= 4 then Grouped(digits) else digits
  }

  /** The three groups of a number with at least four digits. */
  function Grouped(d: string): string
    requires |d| >= 4
  {
    d[..4] + "-" + Slice(d, 4, 8) + "-" + Slice(d, 8, 12)
  }

  /** The groups, read in order, are the first min(12, n) digits. */
  lemma GroupsCoverPrefix(d: string)
    requires |d| >= 4
    ensures d[..4] + Slice(d, 4, 8) + Slice(d, 8, 12) == d[..Min(12, |d|)]
  {
  }

  /** A filter that keeps every digit and drops the hyphen reads the groups back without hyphens. */
  lemma {:induction false} FilterGrouped(d: string, keep: char -> bool)
    requires |d| >= 4 && AllDigits(d)
    requires forall c :: IsDigit(c) ==> keep(c)
    requires !keep('-')
    ensures Filter(Grouped(d), keep) == d[..Min(12, |d|)]
  {
    var a, b, c := d[..4], Slice(d, 4, 8), Slice(d, 8, 12);
    FilterKeepsAll(a, keep);
    FilterKeepsAll(b, keep);
    FilterKeepsAll(c, keep);
    assert Filter("-", keep) == "" by {
      assert "-"[1..] == [];
    }
    FilterAppend(a, "-", keep);
    FilterAppend(a + "-", b, keep);
    FilterAppend(a + "-" + b, "-", keep);
    FilterAppend(a + "-" + b + "-", c, keep);
    GroupsCoverPrefix(d);
  }

  /** The output is digits and hyphens only; without its hyphens it is the first min(12, n) digits. */
  lemma FormatKeepsLeadingDigits(phone: string)
    ensures var out := FormatPhoneNumber(phone);
            forall i :: 0 <= i < |out| ==> IsDigit(out[i]) || out[i] == '-'
    ensures var d := Digits(phone);
            Filter(FormatPhoneNumber(phone), NotHyphen) == d[..Min(12, |d|)]
  {
    var d := Digits(phone);
    if |d| >= 4 {
      FilterGrouped(d, NotHyphen);
      var out := Grouped(d);
      assert forall i :: 0 <= i < |out| ==> out[i] in d || out[i] == '-';
    } else {
      FilterKeepsAll(d, NotHyphen);
    }
  }

  /** With fewer than four digits the digits come back unchanged; otherwise exactly two hyphens are added. */
  lemma FormatHyphenCount(phone: string)
    ensures var d := Digits(phone);
            multiset(FormatPhoneNumber(phone))['-'] == if |d| >= 4 then 2 else 0
    ensures |Digits(phone)| < 4 ==> FormatPhoneNumber(phone) == Digits(phone)
  {
    var d := Digits(phone);
    assert forall i :: 0 <= i < |d| ==> d[i] != '-';
    assert '-' !in d;
    assert multiset(d)['-'] == 0;
    if |d| >= 4 {
      var a, b, c := d[..4], Slice(d, 4, 8), Slice(d, 8, 12);
      GroupsCoverPrefix(d);
      assert d == a + b + c + d[Min(12, |d|)..];
      assert multiset(d) == multiset(a) + multiset(b) + multiset(c) + multiset(d[Min(12, |d|)..]);
      var out := a + "-" + b + "-" + c;
      assert multiset(out) == multiset(a) + multiset{'-'} + multiset(b) + multiset{'-'} + multiset(c);
    }
  }

  /** Formatting a formatted number changes nothing. */
  lemma FormatIdempotent(phone: string)
    ensures FormatPhoneNumber(FormatPhoneNumber(phone)) == FormatPhoneNumber(phone)
  {
    var d := Digits(phone);
    if |d| < 4 {
      FilterKeepsAll(d, IsDigit);
    } else {
      FilterGrouped(d, IsDigit);
      var e := d[..Min(12, |d|)];
      assert Digits(Grouped(d)) == e;
      assert e[..4] == d[..4];
      assert Slice(e, 4, 8) == Slice(d, 4, 8);
      assert Slice(e, 8, 12) == Slice(d, 8, 12);
    }
  }
}
