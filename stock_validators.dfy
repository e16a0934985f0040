/**
 * The cleaners of `src/stock/validators.py`: a price must not be negative and a discount must lie in
 * 0 to 100 percent; a missing value, and any accepted value, is returned unchanged. Prices are in
 * cents and percentages in hundredths of a percent.
 */
module StockValidators {
  import opened Common
  import opened CoreValidators
  import opened FormValidators

  const NegativePrice := "Price must be non-negative."
  const DiscountOutOfRange := "Discount percentage must be between 0 and 100."

  /** `clean_price`. */
  function CleanPrice(price: Option<int>): (r: Result<Option<int>, string>)
    ensures r.Ok? <==> price.None? || price.value >= 0
    ensures r.Ok? ==> r.value == price
    ensures r.Err? ==> r.error == NegativePrice
  {
    if price.None? then Ok(price)
    else if price.value < 0 then Err(NegativePrice)
    else Ok(price)
  }

  /** `clean_discount_percentage`. */
  function CleanDiscountPercentage(pct: Option<int>): (r: Result<Option<int>, string>)
    ensures r.Ok? <==> pct.None? || 0 <= pct.value <= 10000
    ensures r.Ok? ==> r.value == pct
    ensures r.Err? ==> r.error == DiscountOutOfRange
  {
    if pct.None? then Ok(pct)
    else if pct.value < 0 || pct.value > 10000 then Err(DiscountOutOfRange)
    else Ok(pct)
  }

  /**
   * `clean_price` is looser than `validate_current_price`: it lets a missing price and prices below 1
   * through, which the model validator refuses.
   */
  lemma CleanPriceIsLooser(price: Option<int>)
    ensures ValidateCurrentPrice(price).Pass? ==> CleanPrice(price) == Ok(price)
    ensures CleanPrice(price).Ok? && !ValidateCurrentPrice(price).Pass? <==> price.None? || 0 <= price.value < 100
  {
  }

  /** All three discount checks accept the same present values; only the form check requires one. */
  lemma DiscountChecksAgree(pct: int)
    ensures CleanDiscountPercentage(Some(pct)).Ok? <==> ValidateDiscountPercentage(pct).Pass?
    ensures CleanDiscountPercentage(Some(pct)).Ok? <==> ValidatePercentage(Some(pct)).Pass?
    ensures CleanDiscountPercentage(None).Ok? && ValidatePercentage(None).Fail?
  {
  }
}
