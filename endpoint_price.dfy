/** The price endpoint's input parameters and its custom input validation. */
module EndpointPrice {
  import opened Wrappers
  import opened Errors

  /** The validated `base`/`quote` pair of a price request. */
  datatype PriceParams = PriceParams(base: string, quote: string)

  const EmptyBaseMessage: string := "Input \"base\" cannot be empty."
  const EmptyQuoteMessage: string := "Input \"quote\" cannot be empty."

  /** `customInputValidation`: `base` is checked before `quote`, only for
      emptiness (the empty string is the one falsy string). */
  function CustomInputValidation(p: PriceParams): (r: Option<AdapterError>)
    ensures r.None? <==> p.base != "" && p.quote != ""
    ensures p.base == "" ==> r == Some(AdapterInputError(400, EmptyBaseMessage))
    ensures p.base != "" && p.quote == "" ==> r == Some(AdapterInputError(400, EmptyQuoteMessage))
  {
    if p.base == "" then Some(AdapterInputError(400, EmptyBaseMessage))
    else if p.quote == "" then Some(AdapterInputError(400, EmptyQuoteMessage))
    else None
  }

  /** The integration test's requests: an empty base is reported even when the
      quote is empty too, and a non-empty pair passes. */
  lemma ValidationExamples()
    ensures CustomInputValidation(PriceParams("", "USD")) == Some(AdapterInputError(400, EmptyBaseMessage))
    ensures CustomInputValidation(PriceParams("", "")) == Some(AdapterInputError(400, EmptyBaseMessage))
    ensures CustomInputValidation(PriceParams("BTC", "")) == Some(AdapterInputError(400, EmptyQuoteMessage))
    ensures CustomInputValidation(PriceParams("ETH", "USD")) == None
  {
  }
}
