/** The deposit request and response records and the five payment methods. */
module DepositTypes {
  import opened Base

  datatype PaymentMethod = VaBank | Retail | Qris | EWallet | All

  /** The wire spelling of each method. */
  function Name(m: PaymentMethod): string {
    match m
    case VaBank => "VA_BANK"
    case Retail => "RETAIL"
    case Qris => "QRIS"
    case EWallet => "EWALLET"
    case All => "ALL"
  }

  /** Reads a wire spelling back; any other text is not a payment method. */
  function ParsePaymentMethod(s: string): Option<PaymentMethod> {
    if s == "VA_BANK" then Some(VaBank)
    else if s == "RETAIL" then Some(Retail)
    else if s == "QRIS" then Some(Qris)
    else if s == "EWALLET" then Some(EWallet)
    else if s == "ALL" then Some(All)
    else None
  }

  /** Parsing inverts naming, and only the five names parse. */
  lemma ParseNameRoundTrip(m: PaymentMethod, s: string)
    ensures ParsePaymentMethod(Name(m)) == Some(m)
    ensures ParsePaymentMethod(s) == Some(m) <==> s == Name(m)
  {
  }

  datatype CreateDepositRequest = CreateDepositRequest(
    amount: real,
    phoneNumber: Option<string>,
    paymentMethod: PaymentMethod,
    authToken: Option<string>)

  datatype PaymentMethodInfo = PaymentMethodInfo(
    invoiceId: string,
    invoiceUrl: string,
    amount: real,
    status: string)

  datatype CreateDepositResponse = CreateDepositResponse(
    ticketId: int,
    invoiceUrl: string,
    paymentMethod: PaymentMethod,
    amount: real,
    paymentMethods: Option<map<string, PaymentMethodInfo>>)
}
