/**
 * The price filter of the book store listing (`src/books/utils.py`): `to_int` on a request parameter,
 * and the way `searchfilter_bookStore` turns the requested `min_price`/`max_price` into the range it
 * filters on, given the lowest and highest `price` of the available stocks. Prices are in cents; the
 * range it returns is in whole currency units, as the page shows it.
 */
module BookFilters {
  import opened Common
  import opened Text

  /** Python's `int(s)` on a string: surrounding whitespace, an optional sign, then decimal digits. */
  function IntLiteral(s: string): (r: Option<int>)
    ensures r.Some? ==> Strip(s) != [] && !IsSpace(Strip(s)[0])
  {
    var t := Strip(s);
    if t == [] then None
    else if (t[0] == '-' || t[0] == '+') && |t| > 1 && AllDigits(t[1..]) then
      var magnitude: int := DigitsValue(t[1..]);
      Some(if t[0] == '-' then -magnitude else magnitude)
    else if AllDigits(t) then Some(DigitsValue(t))
    else None
  }

  /** `to_int(value, default)`: `int(value)`, or `fallback` when `int` raises `TypeError` or `ValueError`. */
  function ToInt(value: Option<string>, fallback: int): (r: int)
    ensures value.None? ==> r == fallback
  {
    match value
    case None => fallback
    case Some(s) => IntLiteral(s).GetOr(fallback)
  }

  /**
   * `t` is a text `int()` reads as `v`: an optional sign, any number of zeros, then the digits of
   * `|v|` as `str` writes them; `-` is the sign of a negative `v` and may also precede `0`.
   */
  ghost predicate Spells(t: string, v: int)
  {
    exists k: nat :: SpelledWith(t, v, k)
  }

  /** `t` spells `v` after exactly `k` leading zeros. */
  ghost predicate SpelledWith(t: string, v: int, k: nat)
  {
    var digits := Zeros(k) + NatToDigits(Abs(v));
    || (v >= 0 && (t == digits || t == "+" + digits))
    || (v <= 0 && t == "-" + digits)
  }

  /** Digits parse to the number they denote. */
  lemma DigitsParse(t: string, v: int)
    requires t != [] && AllDigits(t) && v == DigitsValue(t)
    ensures IntLiteral(t) == Some(v)
  {
    DigitsAreNotSpaces(t);
    assert Strip(t) == t;
    assert IsDigit(t[0]);
  }

  /** A sign before digits gives the number they denote, negated after `-`. */
  lemma SignedDigitsParse(t: string, v: int)
    requires |t| > 1 && (t[0] == '+' || t[0] == '-') && AllDigits(t[1..])
    requires v == if t[0] == '-' then -(DigitsValue(t[1..]) as int) else DigitsValue(t[1..])
    ensures IntLiteral(t) == Some(v)
  {
    var d := t[1..];
    DigitsAreNotSpaces(d);
    forall i | 0 <= i < |t| ensures !IsSpace(t[i]) {
      if i > 0 {
        assert t[i] == d[i - 1];
      }
    }
    assert Strip(t) == t;
  }

  /** Every text of that form parses, to the number it spells. */
  lemma SpelledParses(t: string, v: int)
    requires Spells(t, v)
    ensures IntLiteral(t) == Some(v)
  {
    var k :| SpelledWith(t, v, k);
    SpelledWithParses(t, v, k);
  }

  /** `SpelledParses` for a given number of leading zeros. */
  lemma SpelledWithParses(t: string, v: int, k: nat)
    requires SpelledWith(t, v, k)
    ensures IntLiteral(t) == Some(v)
  {
    var digits := Zeros(k) + NatToDigits(Abs(v));
    LeadingZeros(k, NatToDigits(Abs(v)));
    if v >= 0 && t == digits {
      DigitsParse(t, v);
    } else {
      assert t[1..] == digits;
      SignedDigitsParse(t, v);
    }
  }

  /** Whatever parses is of that form once stripped, and spells the number it parses to. */
  lemma IntLiteralSpells(s: string)
    ensures IntLiteral(s).Some? ==> Spells(Strip(s), IntLiteral(s).value)
  {
    var t := Strip(s);
    if IntLiteral(s).Some? {
      var v := IntLiteral(s).value;
      if (t[0] == '-' || t[0] == '+') && |t| > 1 && AllDigits(t[1..]) {
        var k := SplitZeros(t[1..]);
        assert t == [t[0]] + t[1..];
        assert SpelledWith(t, v, k);
      } else {
        var k := SplitZeros(t);
        assert SpelledWith(t, v, k);
      }
    }
  }

  /**
   * `int()` fails exactly on the texts that, stripped, spell no number: the two lemmas above make
   * this an if-and-only-if.
   */
  lemma IntLiteralIff(s: string)
    ensures IntLiteral(s).None? <==> forall v :: !Spells(Strip(s), v)
  {
    IntLiteralSpells(s);
    if v :| Spells(Strip(s), v) {
      SpelledParses(Strip(s), v);
    }
  }

  /** `to_int`: the number the stripped text spells, or the fallback when it is missing or spells none. */
  lemma ToIntSpec(value: Option<string>, fallback: int)
    ensures value.Some? && (exists v :: Spells(Strip(value.value), v)) ==> Spells(Strip(value.value), ToInt(value, fallback))
    ensures value.None? || (forall v :: !Spells(Strip(value.value), v)) ==> ToInt(value, fallback) == fallback
  {
    if value.Some? {
      IntLiteralIff(value.value);
      IntLiteralSpells(value.value);
    }
  }

  /** A plus sign is accepted. */
  lemma ToIntPlusSign(fallback: int)
    ensures ToInt(Some("+5"), fallback) == 5
  {
    var t := "+5";
    assert t[1..] == "5";
    SignedDigitsParse(t, 5);
  }

  /** Leading zeros are accepted. */
  lemma ToIntLeadingZeros(fallback: int)
    ensures ToInt(Some("007"), fallback) == 7
  {
    var t := "007";
    assert t == Zeros(2) + "7";
    LeadingZeros(2, "7");
    DigitsParse(t, 7);
  }

  /** A minus sign before zero gives zero. */
  lemma ToIntMinusZero(fallback: int)
    ensures ToInt(Some("-0"), fallback) == 0
  {
    var t := "-0";
    assert t[1..] == "0";
    SignedDigitsParse(t, 0);
  }

  /** Letters, and a number in exponent notation, fall back. */
  lemma ToIntRejectsWords(fallback: int)
    ensures ToInt(Some("abc"), fallback) == fallback
    ensures ToInt(Some("1e3"), fallback) == fallback
  {
    var word, exponent := "abc", "1e3";
    assert forall i :: 0 <= i < |word| ==> !IsSpace(word[i]);
    assert Strip(word) == word;
    assert forall i :: 0 <= i < |exponent| ==> !IsSpace(exponent[i]);
    assert Strip(exponent) == exponent;
    assert !IsDigit(exponent[1]);
  }

  /** `str` then `to_int` gives the integer back, whatever the fallback. */
  lemma ToIntRoundTrip(n: int, fallback: int)
    ensures ToInt(Some(IntToString(n)), fallback) == n
  {
    var s := IntToString(n);
    assert forall i :: 0 <= i < |s| ==> !IsSpace(s[i]);
    assert Strip(s) == s;
    if n < 0 {
      assert s[1..] == NatToDigits(-n);
    }
  }

  /** Whitespace around the number is ignored, as `int` strips it. */
  lemma ToIntIgnoresSpaces(n: nat, fallback: int)
    ensures ToInt(Some(" " + NatToDigits(n) + "\n"), fallback) == n
  {
    var d := NatToDigits(n);
    PaddedStrip(d);
    assert Strip(" " + d + "\n") == d;
  }

  lemma PaddedStrip(d: string)
    requires d != [] && AllDigits(d)
    ensures LStrip(" " + d + "\n") == d + "\n"
    ensures RStrip(d + "\n") == d
  {
    var s := " " + d + "\n";
    var t := d + "\n";
    assert s[1..] == t;
    DigitIsNotSpace(d[0]);
    assert t[0] == d[0];
    assert t[..|t| - 1] == d;
    DigitIsNotSpace(d[|d| - 1]);
  }

  /** A price written with a decimal point is not an `int` literal and falls back to the default. */
  lemma ToIntFallsBack(whole: string, cents: string, fallback: int)
    requires whole != [] && AllDigits(whole) && AllDigits(cents)
    ensures ToInt(Some(whole + "." + cents), fallback) == fallback
  {
    DecimalStripped(whole, cents);
    DecimalNotDigits(whole, cents);
  }

  lemma DecimalStripped(whole: string, cents: string)
    requires AllDigits(whole) && AllDigits(cents)
    ensures Strip(whole + "." + cents) == whole + "." + cents
  {
    DecimalHasNoSpaces(whole, cents);
  }

  lemma DecimalNotDigits(whole: string, cents: string)
    requires whole != [] && AllDigits(whole)
    ensures !AllDigits(whole + "." + cents) && IsDigit((whole + "." + cents)[0])
  {
    var s := whole + "." + cents;
    assert s[|whole|] == '.';
    assert s[0] == whole[0];
  }

  lemma DecimalHasNoSpaces(whole: string, cents: string)
    requires AllDigits(whole) && AllDigits(cents)
    ensures forall i :: 0 <= i < |whole + "." + cents| ==> !IsSpace((whole + "." + cents)[i])
  {
    var s := whole + "." + cents;
    forall i | 0 <= i < |s| ensures !IsSpace(s[i]) {
      if i < |whole| {
        assert s[i] == whole[i];
        DigitIsNotSpace(s[i]);
      } else if i > |whole| {
        assert s[i] == cents[i - |whole| - 1];
        DigitIsNotSpace(s[i]);
      } else {
        assert s[i] == '.';
      }
    }
  }

  /** `Min('price')` and `Max('price')` over the available stocks, when there is any. */
  datatype PriceBounds = PriceBounds(low: int, high: int)

  /** The filter's outcome: whether it was applied, the range, and the slider's top (`db_max`). */
  datatype PriceFilter = PriceFilter(applied: bool, minVal: int, maxVal: int, dbMax: int)

  /** What Python raises when `max_price` is compared with the `None` aggregate of an empty table. */
  const NoneComparison := "'>' not supported between instances of 'int' and 'NoneType'"

  /** `ceil(x / d)`. */
  function CeilDiv(x: int, d: nat): (q: int)
    requires d > 0
    ensures q * d >= x && (q - 1) * d < x
  {
    -((-x) / d)
  }

  lemma {:induction false} CeilDivMono(x: int, y: int, d: nat)
    requires d > 0 && x <= y
    ensures CeilDiv(x, d) <= CeilDiv(y, d)
  {
  }

  /** `ceil(cents / 100 / 100) * 100`: a price in cents rounded up to a whole hundred units. */
  function UpToHundred(cents: int): (u: int)
    ensures u % 100 == 0 && u * 100 >= cents && (u - 100) * 100 < cents
  {
    CeilDiv(cents, 10000) * 100
  }

  lemma UpToHundredMono(x: int, y: int)
    requires x <= y
    ensures UpToHundred(x) <= UpToHundred(y)
  {
    CeilDivMono(x, y, 10000);
  }

  /**
   * `db_max`: the highest price rounded up to a whole hundred, or 10000 when there is no available
   * stock or the highest price is 0 (a zero `Decimal` is false).
   */
  function DbMax(agg: Option<PriceBounds>): (r: int)
    ensures agg.None? || agg.value.high == 0 ==> r == 10000
    ensures agg.Some? && agg.value.high != 0 ==> r % 100 == 0 && r * 100 >= agg.value.high && (r - 100) * 100 < agg.value.high
  {
    if agg.Some? && agg.value.high != 0 then UpToHundred(agg.value.high) else 10000
  }

  /**
   * The price range of `searchfilter_bookStore`: `db_max`, then, when either bound is given, the
   * parsed bounds clamped by `ClampPrices`. `agg` is `None` when no stock is available.
   */
  method SearchPriceRange(minPrice: Option<string>, maxPrice: Option<string>, agg: Option<PriceBounds>)
    returns (r: Result<PriceFilter, string>)
    requires agg.Some? ==> agg.value.low <= agg.value.high
    ensures !Given(minPrice) && !Given(maxPrice) ==> r == Ok(PriceFilter(false, 0, DbMax(agg), DbMax(agg)))
    ensures r.Err? <==> (Given(minPrice) || Given(maxPrice)) && agg.None?
    ensures r.Err? ==> r.error == NoneComparison
    ensures r.Ok? ==> r.value.dbMax == DbMax(agg) && (r.value.applied <==> Given(minPrice) || Given(maxPrice))
    ensures r.Ok? && r.value.applied ==>
      Clamped(ToInt(minPrice, 0), ToInt(maxPrice, DbMax(agg)), agg.value, r.value.minVal, r.value.maxVal)
  {
    var dbMax := DbMax(agg);
    if !Given(minPrice) && !Given(maxPrice) {
      return Ok(PriceFilter(false, 0, dbMax, dbMax));
    }
    var lo := ToInt(minPrice, 0);
    var hi := ToInt(maxPrice, dbMax);
    if agg.None? {
      // `max_val` is compared with, or replaced by, the `None` aggregate, and the comparison raises
      return Err(NoneComparison);
    }
    var minVal, maxVal := ClampPrices(lo, hi, agg.value);
    r := Ok(PriceFilter(true, minVal, maxVal, dbMax));
  }

  /** What the clamping promises about the range `(minVal, maxVal)` made from the parsed bounds. */
  ghost predicate Clamped(lo: int, hi: int, bounds: PriceBounds, minVal: int, maxVal: int)
  {
    var dbMax := DbMax(Some(bounds));
    && minVal >= 0 && maxVal % 100 == 0
    // the lower end is the requested one, or 0 when that was negative, malformed or above every price
    && (minVal == Max(lo, 0) || minVal == 0)
    && (Max(lo, 0) * 100 > bounds.high ==> minVal == 0)
    // a request inside the prices with a gap of at least 500 is kept as it is
    && (0 <= lo && hi % 100 == 0 && lo + 500 <= hi && hi * 100 <= bounds.high ==> minVal == lo && maxVal == hi)
    // a missing, malformed, negative or too high maximum becomes `db_max`
    && ((hi < 0 || hi * 100 >= bounds.high) && Max(lo, 0) * 100 + 50000 <= bounds.high ==> maxVal == dbMax)
    // the top never passes `db_max` by more than the widened gap
    && (maxVal <= dbMax || maxVal < minVal + 600)
    // with prices that are not negative, the range is ordered and at least 500 wide unless empty
    && (0 <= bounds.low ==>
          && minVal <= maxVal
          && (maxVal - minVal < 500 ==> maxVal == UpToHundred(minVal * 100)))
  }

  /**
   * Lines 51-70 of `searchfilter_bookStore`, reassigning `min_val` (whole units: it only ever holds
   * an `int`) and `max_val` (cents: it may take a price from the table) step by step.
   */
  method ClampPrices(lo: int, hi: int, bounds: PriceBounds) returns (minVal: int, maxVal: int)
    requires bounds.low <= bounds.high
    ensures Clamped(lo, hi, bounds, minVal, maxVal)
  {
    minVal := lo;
    var cents := hi * 100;
    if minVal < 0 {
      minVal := 0;
    }
    if cents < 0 || cents > bounds.high {
      cents := bounds.high;
    }
    if minVal * 100 > cents {
      minVal, cents := 0, bounds.low;
    }
    if cents > minVal * 100 && cents - minVal * 100 < 50000 {
      cents := minVal * 100 + 50000;
    }
    // `floor(min_val)` leaves the integer as it is
    maxVal := UpToHundred(cents);
    if cents <= bounds.high {
      UpToHundredMono(cents, bounds.high);
    }
  }
}
