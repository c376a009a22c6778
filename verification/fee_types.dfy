/** The fee configuration served by the fees endpoint. */
module FeeTypes {
  import opened Base

  /** 'static' or 'percentage'; any other text the endpoint might send is kept as it is. */
  datatype FeeType = Static | Percentage | UnknownFeeType(name: string)

  datatype FeeConfig = FeeConfig(feeType: FeeType, value: real, formatted: string)

  /** One entry per configurable method; a missing or null entry is `None`. There is no entry for ALL. */
  datatype FeesResponse = FeesResponse(
    vaBank: Option<FeeConfig>,
    retail: Option<FeeConfig>,
    qris: Option<FeeConfig>,
    ewallet: Option<FeeConfig>)
}
