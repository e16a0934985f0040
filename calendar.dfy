/**
 * Calendar dates, their order, and `datetime.strptime(s, "%Y-%m-%d")` as Python's `_strptime`
 * implements it: a four-digit year, a month written `1[0-2]|0[1-9]|[1-9]`, a day written
 * `3[01]|[12]\d|0[1-9]|[1-9]| [1-9]`, the whole string consumed, and the date checked to exist.
 */
module Calendar {
  import opened Common
  import opened Text
  import opened Decimals

  datatype Date = Date(year: int, month: int, day: int)

  predicate IsLeap(y: int)
  {
    y % 4 == 0 && (y % 100 != 0 || y % 400 == 0)
  }

  function DaysInMonth(y: int, m: int): int
    requires 1 <= m <= 12
  {
    if m == 2 then (if IsLeap(y) then 29 else 28)
    else if m == 4 || m == 6 || m == 9 || m == 11 then 30
    else 31
  }

  /** A date `datetime.date` can represent (years 1 to 9999). */
  predicate ValidDate(d: Date)
  {
    1 <= d.year <= 9999 && 1 <= d.month <= 12 && 1 <= d.day <= DaysInMonth(d.year, d.month)
  }

  /** `a < b` as Python compares dates. */
  predicate Before(a: Date, b: Date)
  {
    || a.year < b.year
    || (a.year == b.year && a.month < b.month)
    || (a.year == b.year && a.month == b.month && a.day < b.day)
  }

  /** Dates are totally ordered: of two different dates exactly one comes first. */
  lemma BeforeTotal(a: Date, b: Date)
    ensures a == b || Before(a, b) || Before(b, a)
    ensures !(Before(a, b) && Before(b, a))
    ensures !Before(a, a)
  {
  }

  /** The month group `1[0-2]|0[1-9]|[1-9]`, matched by the whole of `t`. */
  function MonthToken(t: string): (r: Option<int>)
    ensures r.Some? ==> 1 <= r.value <= 12
  {
    if |t| == 2 && t[0] == '1' && '0' <= t[1] <= '2' then Some(10 + DigitValue(t[1]))
    else if |t| == 2 && t[0] == '0' && '1' <= t[1] <= '9' then Some(DigitValue(t[1]))
    else if |t| == 1 && '1' <= t[0] <= '9' then Some(DigitValue(t[0]))
    else None
  }

  /** The day group `3[01]|[12]\d|0[1-9]|[1-9]| [1-9]`, matched by the whole of `t`. */
  function DayToken(t: string): (r: Option<int>)
    ensures r.Some? ==> 1 <= r.value <= 31
  {
    if |t| == 2 && t[0] == '3' && '0' <= t[1] <= '1' then Some(30 + DigitValue(t[1]))
    else if |t| == 2 && '1' <= t[0] <= '2' && IsDigit(t[1]) then Some(10 * DigitValue(t[0]) + DigitValue(t[1]))
    else if |t| == 2 && t[0] == '0' && '1' <= t[1] <= '9' then Some(DigitValue(t[1]))
    else if |t| == 1 && '1' <= t[0] <= '9' then Some(DigitValue(t[0]))
    else if |t| == 2 && t[0] == ' ' && '1' <= t[1] <= '9' then Some(DigitValue(t[1]))
    else None
  }

  /**
   * `datetime.strptime(s, "%Y-%m-%d").date()`: `None` where Python raises `ValueError` (no match,
   * unconverted data left over, or a day or year out of range).
   */
  function ParseIsoDate(s: string): (r: Option<Date>)
    ensures r.Some? ==> ValidDate(r.value)
  {
    if |s| < 8 || !AllDigits(s[..4]) || s[4] != '-' then None
    else
      var rest := s[5..];
      // the month token ends at the first '-' (the month group cannot contain one)
      var k := if rest[1] == '-' then 1 else if |rest| >= 3 && rest[2] == '-' then 2 else 0;
      if k == 0 then None
      else
        var month := MonthToken(rest[..k]);
        var day := DayToken(rest[k + 1..]);
        if month.None? || day.None? then None
        else
          var d := Date(DigitsValue(s[..4]), month.value, day.value);
          if ValidDate(d) then Some(d) else None
  }

  /** `d.isoformat()`: `YYYY-MM-DD` with zero padding. */
  function Format(d: Date): (s: string)
    requires ValidDate(d)
    ensures |s| == 10
  {
    Pad(d.year, 4) + "-" + Pad(d.month, 2) + "-" + Pad(d.day, 2)
  }

  /** `n` written with exactly `width` digits, zero padded. */
  function Pad(n: nat, width: nat): (s: string)
    requires n < Pow10(width)
    ensures |s| == width && AllDigits(s) && DigitsValue(s) == n
  {
    if width == 0 then ""
    else
      assert n / 10 < Pow10(width - 1) by {
        assert Pow10(width) == 10 * Pow10(width - 1);
      }
      var s := Pad(n / 10, width - 1) + [DigitChar(n % 10)];
      assert s[..|s| - 1] == Pad(n / 10, width - 1);
      s
  }

  /** Every date Python can represent parses back from its ISO form. */
  lemma ParseFormat(d: Date)
    requires ValidDate(d)
    ensures ParseIsoDate(Format(d)) == Some(d)
  {
    var s := Format(d);
    var y, m, dd := Pad(d.year, 4), Pad(d.month, 2), Pad(d.day, 2);
    assert s[..4] == y;
    assert s[4] == '-';
    var rest := s[5..];
    assert rest == m + "-" + dd;
    assert rest[2] == '-' && rest[1] != '-';
    assert rest[..2] == m;
    assert rest[3..] == dd;
    assert m[0] == DigitChar(d.month / 10) && m[1] == DigitChar(d.month % 10);
    assert dd[0] == DigitChar(d.day / 10) && dd[1] == DigitChar(d.day % 10);
    assert MonthToken(m) == Some(d.month);
    assert DayToken(dd) == Some(d.day);
  }

  /** Single-digit months and days, and a day written with a leading space, are accepted. */
  lemma ShortFormsAccepted()
    ensures ParseIsoDate("2024-1-5") == Some(Date(2024, 1, 5))
    ensures ParseIsoDate("2024-02- 9") == Some(Date(2024, 2, 9))
    ensures ParseIsoDate("2024-02-29") == Some(Date(2024, 2, 29))
  {
    assert "2024-1-5"[..4] == "2024";
    assert "2024-02- 9"[..4] == "2024";
    assert "2024-02-29"[..4] == "2024";
    assert DigitsValue("2024") == 2024 by {
      assert "2024"[..3] == "202" && "202"[..2] == "20" && "20"[..1] == "2" && "2"[..0] == "";
    }
    assert "2024-1-5"[5..][..1] == "1" && "2024-1-5"[5..][2..] == "5";
    assert "2024-02- 9"[5..][..2] == "02" && "2024-02- 9"[5..][3..] == " 9";
    assert "2024-02-29"[5..][..2] == "02" && "2024-02-29"[5..][3..] == "29";
  }

  /** 29 February of a year that is not a leap year is refused. */
  lemma LeapDayRefused()
    ensures ParseIsoDate("2023-02-29") == None
  {
    assert "2023-02-29"[..4] == "2023";
    assert DigitsValue("2023") == 2023 by {
      assert "2023"[..3] == "202" && "202"[..2] == "20" && "20"[..1] == "2" && "2"[..0] == "";
    }
    assert "2023-02-29"[5..][..2] == "02" && "2023-02-29"[5..][3..] == "29";
  }

  /** Year 0 is below `MINYEAR`. */
  lemma YearZeroRefused()
    ensures ParseIsoDate("0000-01-01") == None
  {
    assert "0000-01-01"[..4] == "0000";
    assert DigitsValue("0000") == 0 by {
      assert "0000"[..3] == "000" && "000"[..2] == "00" && "00"[..1] == "0" && "0"[..0] == "";
    }
    assert "0000-01-01"[5..][..2] == "01" && "0000-01-01"[5..][3..] == "01";
  }

  /** A day of three digits leaves unconverted data. */
  lemma LongDayRefused()
    ensures ParseIsoDate("2024-01-011") == None
  {
    assert "2024-01-011"[..4] == "2024";
    assert "2024-01-011"[5..][..2] == "01" && "2024-01-011"[5..][3..] == "011";
  }

  /** A two-digit year does not match `%Y-`. */
  lemma ShortYearRefused()
    ensures ParseIsoDate("24-01-01") == None
  {
    assert "24-01-01"[4] == '1';
  }

  /** Month 13 does not exist. */
  lemma MonthThirteenRefused()
    ensures ParseIsoDate("2024-13-01") == None
  {
    assert "2024-13-01"[..4] == "2024";
    assert "2024-13-01"[5..][..2] == "13";
  }
}
