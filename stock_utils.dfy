/**
 * `validate_date_range` (`src/stock/utils.py`) with its default format `%Y-%m-%d`: both bounds
 * absent means no filter; otherwise each bound must be present and parse, and `from` must not be
 * later than `to`. Every problem found is reported, under the key of the bound it concerns.
 */
module StockUtils {
  import opened Common
  import opened Calendar

  const FromMissing := "From date must be provided."
  const ToMissing := "To date must be provided."
  const FromMalformed := "'From' date is not a valid date. Expected format: %Y-%m-%d"
  const ToMalformed := "'To' date is not a valid date. Expected format: %Y-%m-%d"
  const FromAfterTo := "'From' date cannot be later than 'To' date."
  const ToBeforeFrom := "'To' date cannot be earlier than 'From' date."

  /** The `errors` dictionary: a message under `from`, under `to`, or both. */
  datatype RangeErrors = RangeErrors(from: Option<string>, to: Option<string>)

  /** The date a present bound parses to, if it does. */
  function ParseBound(s: Option<string>): Option<Date>
  {
    if Given(s) then ParseIsoDate(s.value) else None
  }

  /** The message for one bound before the two are compared. */
  function BoundError(s: Option<string>, missing: string, malformed: string): Option<string>
  {
    if !Given(s) then Some(missing)
    else if ParseIsoDate(s.value).None? then Some(malformed)
    else None
  }

  /**
   * `validate_date_range(from_date_str, to_date_str)`: `Ok((None, None))` when neither bound is
   * given, `Ok` of both dates when the range is valid, and the collected errors otherwise.
   */
  function ValidateDateRange(fromStr: Option<string>, toStr: Option<string>): (r: Result<(Option<Date>, Option<Date>), RangeErrors>)
    ensures r.Err? ==> r.error.from.Some? || r.error.to.Some?
  {
    if !Given(fromStr) && !Given(toStr) then Ok((None, None))
    else
      var fromDate, toDate := ParseBound(fromStr), ParseBound(toStr);
      var errors :=
        if fromDate.Some? && toDate.Some? && Before(toDate.value, fromDate.value)
        then RangeErrors(Some(FromAfterTo), Some(ToBeforeFrom))
        else RangeErrors(BoundError(fromStr, FromMissing, FromMalformed), BoundError(toStr, ToMissing, ToMalformed));
      if errors.from.Some? || errors.to.Some? then Err(errors) else Ok((fromDate, toDate))
  }

  /** Without either bound there is nothing to check and no filter. */
  lemma NoBoundsNoFilter(fromStr: Option<string>, toStr: Option<string>)
    requires !Given(fromStr) && !Given(toStr)
    ensures ValidateDateRange(fromStr, toStr) == Ok((None, None))
  {
  }

  /**
   * A successful result is either no filter at all, or two dates parsed from the two strings with
   * `from` not later than `to`; and every such pair of strings succeeds.
   */
  lemma ValidRangeIff(fromStr: Option<string>, toStr: Option<string>)
    ensures ValidateDateRange(fromStr, toStr).Ok? <==>
      (!Given(fromStr) && !Given(toStr))
      || (ParseBound(fromStr).Some? && ParseBound(toStr).Some? && !Before(ParseBound(toStr).value, ParseBound(fromStr).value))
    ensures match ValidateDateRange(fromStr, toStr)
      case Ok((f, t)) => (f.None? && t.None?) || (f == ParseBound(fromStr) && t == ParseBound(toStr) && f.Some? && t.Some?)
      case Err(_) => true
  {
  }

  /** A bound that is missing is reported as missing, whatever the other bound is (when it is given). */
  lemma MissingBoundReported(fromStr: Option<string>, toStr: Option<string>)
    requires Given(fromStr) != Given(toStr)
    ensures var r := ValidateDateRange(fromStr, toStr);
      && r.Err?
      && (!Given(fromStr) ==> r.error.from == Some(FromMissing))
      && (!Given(toStr) ==> r.error.to == Some(ToMissing))
  {
  }

  /**
   * A bound that is given but does not parse is reported as malformed, whatever the other bound is:
   * the order of the two is only compared when both parse.
   */
  lemma MalformedBoundReported(fromStr: Option<string>, toStr: Option<string>)
    ensures var r := ValidateDateRange(fromStr, toStr);
      && (Given(fromStr) && ParseIsoDate(fromStr.value).None? ==> r.Err? && r.error.from == Some(FromMalformed))
      && (Given(toStr) && ParseIsoDate(toStr.value).None? ==> r.Err? && r.error.to == Some(ToMalformed))
  {
  }

  /** Errors accumulate: a malformed `from` and a missing `to` are both reported. */
  lemma ErrorsAccumulate(fromStr: string)
    requires fromStr != "" && ParseIsoDate(fromStr).None?
    ensures ValidateDateRange(Some(fromStr), None) == Err(RangeErrors(Some(FromMalformed), Some(ToMissing)))
  {
  }

  /** Two well-formed dates in the wrong order are reported on both keys, replacing nothing else. */
  lemma ReversedRangeReported(a: Date, b: Date)
    requires ValidDate(a) && ValidDate(b) && Before(b, a)
    ensures ValidateDateRange(Some(Format(a)), Some(Format(b))) == Err(RangeErrors(Some(FromAfterTo), Some(ToBeforeFrom)))
  {
    ParseFormat(a);
    ParseFormat(b);
  }

  /** The ISO forms of an ordered pair of dates validate back to that pair. */
  lemma FormattedRangeRoundTrip(a: Date, b: Date)
    requires ValidDate(a) && ValidDate(b) && !Before(b, a)
    ensures ValidateDateRange(Some(Format(a)), Some(Format(b))) == Ok((Some(a), Some(b)))
  {
    ParseFormat(a);
    ParseFormat(b);
  }
}
