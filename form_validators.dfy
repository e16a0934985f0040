/**
 * The form-field validators of `src/core/forms/validators.py`: a required value, a percentage from 0
 * to 100, and text without whitespace at either end. Percentages are in hundredths of a percent.
 */
module FormValidators {
  import opened Common
  import opened Text
  import opened CoreValidators
  import opened StringValidators

  const Required := "This field is required"
  const PercentageOutOfRangeForm := "Discount percentage must be between 0 and 100"
  const PaddedText := "Text cannot have leading or trailing whitespace"

  /** A form value: text, or a value of any other type (a number, a date, ...). */
  datatype FormValue = TextValue(text: string) | NonText

  /** `validate_value_required`: only `None` is refused. */
  function ValidateValueRequired<T>(value: Option<T>): (r: Outcome<string>)
    ensures r.Pass? <==> value.Some?
    ensures r.Fail? ==> r.error == Required
  {
    if value.None? then Fail(Required) else Pass
  }

  /** `validate_percentage`: required first, then the closed range 0 to 100 percent. */
  function ValidatePercentage(value: Option<int>): (r: Outcome<string>)
    ensures value.None? ==> r == Fail(Required)
    ensures value.Some? ==> (r.Pass? <==> 0 <= value.value <= 10000)
    ensures value.Some? && r.Fail? ==> r.error == PercentageOutOfRangeForm
  {
    match ValidateValueRequired(value)
    case Fail(e) => Fail(e)
    case Pass =>
      if value.value < 0 || value.value > 10000 then Fail(PercentageOutOfRangeForm) else Pass
  }

  /** The form check and the model check accept the same percentages, with their own messages. */
  lemma PercentageChecksAgree(value: int)
    ensures ValidatePercentage(Some(value)).Pass? <==> ValidateDiscountPercentage(value).Pass?
    ensures ValidatePercentage(Some(0)) == Pass && ValidatePercentage(Some(10000)) == Pass
    ensures ValidatePercentage(Some(10001)) == Fail(PercentageOutOfRangeForm)
  {
  }

  /**
   * `validate_no_leading_trailing_spaces`: required first; text must equal its stripped form, and any
   * other value passes.
   */
  function ValidateNoLeadingTrailingSpaces(value: Option<FormValue>): (r: Outcome<string>)
    ensures value.None? ==> r == Fail(Required)
    ensures value == Some(NonText) ==> r == Pass
    ensures r.Fail? && value.Some? ==> r.error == PaddedText
  {
    match ValidateValueRequired(value)
    case Fail(e) => Fail(e)
    case Pass =>
      match value.value
      case TextValue(s) => if s != Strip(s) then Fail(PaddedText) else Pass
      case NonText => Pass
  }

  /** Text passes exactly when neither its first nor its last character is whitespace. */
  lemma PaddedTextIff(s: string)
    ensures ValidateNoLeadingTrailingSpaces(Some(TextValue(s))).Pass? <==>
      (s == [] || (!IsSpace(s[0]) && !IsSpace(s[|s| - 1])))
  {
    if s != [] && !IsSpace(s[0]) && !IsSpace(s[|s| - 1]) {
      StripClean(s);
    } else if s != [] {
      if IsSpace(s[0]) {
        assert |LStrip(s)| < |s|;
      } else {
        assert LStrip(s) == s;
        assert |RStrip(s)| < |s|;
      }
    }
  }

  /** Whatever `sanitize_spaces` returns passes the whitespace check. */
  lemma SanitizedTextPasses(s: string)
    ensures ValidateNoLeadingTrailingSpaces(Some(TextValue(SanitizeSpaces(s)))) == Pass
  {
    StripClean(SanitizeSpaces(s));
  }
}
