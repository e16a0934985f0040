/**
 * The model-field validators of `src/core/validators/`: the numeric checks of `numbers.py`, the price
 * check of `stock.py` and the date checks of `dates.py`. A validator passes or raises
 * `ValidationError` with its message. Prices are in cents and percentages in hundredths of a percent;
 * "today" is a parameter.
 */
module CoreValidators {
  import opened Common
  import opened Text
  import opened Calendar

  const NotANumber := "Field must be a number."
  const NotPositive := "Field must be a positive integer."
  const PercentageOutOfRange := "Discount percentage must be between 0 and 100."
  const StockBelowOne := "Minimum stock must be at least 1."
  const PriceRequired := "Current price is required"
  const PriceNegative := "Current price cannot be negative"
  const PriceNotSet := "Current price must be set"
  const NotInFuture := "Dates must be in future."
  const NotInPast := "Dates must be in past."
  const InvalidDate := "Invalid date."
  const BadDateFormat := "Date must be in YYYY-MM-DD format."

  /** `validate_number`: `str.isdigit()`, which is false for the empty string. */
  function ValidateNumber(value: string): (r: Outcome<string>)
    ensures r.Pass? <==> value != [] && forall i :: 0 <= i < |value| ==> IsDigit(value[i])
    ensures r.Fail? ==> r.error == NotANumber
  {
    if value != [] && AllDigits(value) then Pass else Fail(NotANumber)
  }

  /** Every number `str` writes passes, and the empty string does not. */
  lemma NumbersPass(n: nat)
    ensures ValidateNumber(NatToDigits(n)) == Pass
    ensures ValidateNumber("") == Fail(NotANumber)
  {
  }

  /** `validate_positive_integer`: despite its name it accepts 0. */
  function ValidatePositiveInteger(value: int): (r: Outcome<string>)
    ensures r.Pass? <==> value >= 0
    ensures r.Fail? ==> r.error == NotPositive
  {
    if value < 0 then Fail(NotPositive) else Pass
  }

  /** `validate_discount_percentage`: the closed range 0 to 100 percent. */
  function ValidateDiscountPercentage(value: int): (r: Outcome<string>)
    ensures r.Pass? <==> 0 <= value <= 10000
    ensures r.Fail? ==> r.error == PercentageOutOfRange
  {
    if value < 0 || value > 10000 then Fail(PercentageOutOfRange) else Pass
  }

  /** `validate_minimum_stock`: at least one unit. */
  function ValidateMinimumStock(value: int): (r: Outcome<string>)
    ensures r.Pass? <==> value >= 1
    ensures r.Fail? ==> r.error == StockBelowOne
  {
    if value < 1 then Fail(StockBelowOne) else Pass
  }

  /** A minimum stock is a positive integer, and zero is the one positive integer it refuses. */
  lemma MinimumStockIsStricter(value: int)
    ensures ValidateMinimumStock(value).Pass? ==> ValidatePositiveInteger(value).Pass?
    ensures ValidatePositiveInteger(value).Pass? && !ValidateMinimumStock(value).Pass? <==> value == 0
  {
  }

  /**
   * `validate_current_price`: a missing price is required, a negative one is reported as negative
   * (before the "at least 1" rule), one below 1 is not set, and everything else passes.
   */
  function ValidateCurrentPrice(value: Option<int>): (r: Outcome<string>)
    ensures r.Pass? <==> value.Some? && value.value >= 100
    ensures value.None? ==> r == Fail(PriceRequired)
    ensures value.Some? && value.value < 0 ==> r == Fail(PriceNegative)
    ensures value.Some? && 0 <= value.value < 100 ==> r == Fail(PriceNotSet)
  {
    match value
    case None => Fail(PriceRequired)
    case Some(v) =>
      if v < 0 then Fail(PriceNegative)
      else if v < 100 then Fail(PriceNotSet)
      else Pass
  }

  /** `validate_future_dates(value)` against `today`: today itself passes. */
  function ValidateFutureDate(value: Date, today: Date): (r: Outcome<string>)
    ensures r.Pass? <==> !Before(value, today)
    ensures r.Fail? ==> r.error == NotInFuture
  {
    if Before(value, today) then Fail(NotInFuture) else Pass
  }

  /** `validate_past_dates(value)` against `today`: today itself passes. */
  function ValidatePastDate(value: Date, today: Date): (r: Outcome<string>)
    ensures r.Pass? <==> !Before(today, value)
    ensures r.Fail? ==> r.error == NotInPast
  {
    if Before(today, value) then Fail(NotInPast) else Pass
  }

  /** Only today is both not in the past and not in the future. */
  lemma TodayIsBoth(value: Date, today: Date)
    ensures ValidateFutureDate(value, today).Pass? && ValidatePastDate(value, today).Pass? <==> value == today
    ensures ValidateFutureDate(value, today).Pass? || ValidatePastDate(value, today).Pass?
  {
    BeforeTotal(value, today);
  }

  /** What `validate_date` may be given: a string, a `date`, or anything else. */
  datatype DateInput = DateText(text: string) | DateValue(date: Date) | OtherValue

  /**
   * `validate_date`: a string must parse as `%Y-%m-%d`, a `date` passes as it is, and any other value
   * is refused as an invalid date.
   */
  function ValidateDate(value: DateInput): (r: Outcome<string>)
    ensures value.DateValue? ==> r.Pass?
    ensures value.OtherValue? ==> r == Fail(InvalidDate)
    ensures value.DateText? ==> (r.Pass? <==> ParseIsoDate(value.text).Some?)
    ensures r.Fail? && value.DateText? ==> r.error == BadDateFormat
  {
    match value
    case DateText(s) => if ParseIsoDate(s).Some? then Pass else Fail(BadDateFormat)
    case DateValue(_) => Pass
    case OtherValue => Fail(InvalidDate)
  }

  /** The ISO form of a valid date passes, and a day that does not exist is refused as malformed. */
  lemma IsoDatesPass(d: Date)
    requires ValidDate(d)
    ensures ValidateDate(DateText(Format(d))) == Pass
    ensures ValidateDate(DateText("2023-02-29")) == Fail(BadDateFormat)
  {
    ParseFormat(d);
    LeapDayRefused();
  }
}
