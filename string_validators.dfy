/**
 * The text helpers of `src/core/validators/strings.py`: `validate_no_special_chars`,
 * `sanitize_spaces` (every run of whitespace becomes one space, then the ends are stripped) and
 * `validate_min_length`.
 */
module StringValidators {
  import opened Common
  import opened Text

  const SpecialChars := "Field must contain letter or numbers only."
  const DefaultMinLength := 3

  /** The message of `validate_min_length`, with `min_length` formatted into it. */
  function TooShort(minLength: int): string
  {
    "Field must contain at least " + IntToString(minLength) + " characters"
  }

  predicate IsAlnum(c: char)
  {
    IsAlpha(c) || IsDigit(c)
  }

  /** `validate_no_special_chars`: `str.isalnum()`, false for the empty string. */
  function ValidateNoSpecialChars(value: string): (r: Outcome<string>)
    ensures r.Pass? <==> value != [] && forall i :: 0 <= i < |value| ==> IsAlnum(value[i])
    ensures r.Fail? ==> r.error == SpecialChars
  {
    if value != [] && forall i :: 0 <= i < |value| ==> IsAlnum(value[i]) then Pass else Fail(SpecialChars)
  }

  /** A value holding whitespace, such as a two-word name, is refused. */
  lemma SpacesAreSpecial(value: string, i: nat)
    requires i < |value| && IsSpace(value[i])
    ensures ValidateNoSpecialChars(value) == Fail(SpecialChars)
  {
    assert !IsAlnum(value[i]);
  }

  /** Whitespace only as single `' '` characters, never two in a row. */
  predicate SingleSpaced(s: string)
  {
    forall i :: 0 <= i < |s| && IsSpace(s[i]) ==> s[i] == ' ' && (i + 1 < |s| ==> !IsSpace(s[i + 1]))
  }

  /** What `sanitize_spaces` produces: single-spaced, with no whitespace at either end. */
  predicate Sanitized(s: string)
  {
    SingleSpaced(s) && (s != [] ==> !IsSpace(s[0]) && !IsSpace(s[|s| - 1]))
  }

  /** The characters of `s` that are not whitespace, in order. */
  function NonSpaces(s: string): string
  {
    if s == [] then [] else (if IsSpace(s[0]) then [] else [s[0]]) + NonSpaces(s[1..])
  }

  /** The longest prefix of `s` without whitespace. */
  function Word(s: string): (w: string)
    ensures |w| <= |s| && w == s[..|w|]
    ensures forall i :: 0 <= i < |w| ==> !IsSpace(w[i])
    ensures |w| < |s| ==> IsSpace(s[|w|])
    ensures s != [] && !IsSpace(s[0]) ==> |w| >= 1
  {
    if s == [] || IsSpace(s[0]) then [] else [s[0]] + Word(s[1..])
  }

  /** The words of `s`: its maximal runs of non-whitespace characters, in order. */
  function Words(s: string): seq<string>
    decreases |s|
  {
    if s == [] then []
    else if IsSpace(s[0]) then Words(s[1..])
    else
      var w := Word(s);
      [w] + Words(s[|w|..])
  }

  lemma {:induction false} NoWordsInSpaces(s: string)
    requires forall i :: 0 <= i < |s| ==> IsSpace(s[i])
    ensures Words(s) == []
    decreases |s|
  {
    if s != [] {
      NoWordsInSpaces(s[1..]);
    }
  }

  lemma {:induction false} LStripKeepsWords(s: string)
    ensures Words(LStrip(s)) == Words(s)
    decreases |s|
  {
    if s != [] && IsSpace(s[0]) {
      LStripKeepsWords(s[1..]);
    }
  }

  /** A word ends where whitespace, or the text, begins. */
  lemma {:induction false} WordBeforeSpace(r: string, t: string)
    requires t == [] || IsSpace(t[0])
    ensures Word(r + t) == Word(r)
    decreases |r|
  {
    if r == [] {
      assert r + t == t;
    } else {
      assert (r + t)[0] == r[0] && (r + t)[1..] == r[1..] + t;
      if !IsSpace(r[0]) {
        WordBeforeSpace(r[1..], t);
      }
    }
  }

  /** Trailing whitespace adds no word. */
  lemma {:induction false} TrailingSpacesKeepWords(r: string, t: string)
    requires forall i :: 0 <= i < |t| ==> IsSpace(t[i])
    ensures Words(r + t) == Words(r)
    decreases |r|
  {
    if r == [] {
      assert r + t == t;
      NoWordsInSpaces(t);
    } else if IsSpace(r[0]) {
      assert (r + t)[0] == r[0] && (r + t)[1..] == r[1..] + t;
      TrailingSpacesKeepWords(r[1..], t);
    } else {
      WordBeforeSpace(r, t);
      var w := Word(r);
      assert (r + t)[0] == r[0];
      assert (r + t)[|w|..] == r[|w|..] + t;
      TrailingSpacesKeepWords(r[|w|..], t);
    }
  }

  lemma RStripKeepsWords(s: string)
    ensures Words(RStrip(s)) == Words(s)
  {
    var r := RStrip(s);
    assert s == r + s[|r|..];
    TrailingSpacesKeepWords(r, s[|r|..]);
  }

  /**
   * A character that is not whitespace, put in front of `c`, starts a word of its own when `c`
   * starts with whitespace (or is empty), and joins the first word of `c` otherwise.
   */
  lemma WordsCons(x: char, c: string)
    requires !IsSpace(x)
    ensures Words([x] + c) ==
      if c == [] || IsSpace(c[0]) then [[x]] + Words(c) else [[x] + Words(c)[0]] + Words(c)[1..]
  {
    var s := [x] + c;
    assert s[0] == x && s[1..] == c;
    var w := Word(c);
    assert Word(s) == [x] + w;
    assert s[|w| + 1..] == c[|w|..];
  }

  /** `re.sub(r'\s+', ' ', s)`: each maximal run of whitespace replaced by one space. */
  function CollapseSpaces(s: string): (r: string)
    ensures SingleSpaced(r)
    ensures r == [] <==> s == []
    ensures s != [] ==> r[0] == (if IsSpace(s[0]) then ' ' else s[0])
    ensures NonSpaces(r) == NonSpaces(s)
    decreases |s|
  {
    if s == [] then []
    else if IsSpace(s[0]) then
      var rest := LStrip(s);
      assert |rest| < |s|;
      var c := CollapseSpaces(rest);
      LStripKeepsNonSpaces(s);
      PrependChar(' ', c);
      " " + c
    else
      var c := CollapseSpaces(s[1..]);
      PrependChar(s[0], c);
      [s[0]] + c
  }

  /** Collapsing whitespace keeps the words. */
  lemma {:induction false} CollapseKeepsWords(s: string)
    ensures Words(CollapseSpaces(s)) == Words(s)
    decreases |s|
  {
    if s == [] {
    } else if IsSpace(s[0]) {
      var rest := LStrip(s);
      CollapseKeepsWords(rest);
      LStripKeepsWords(s);
      var c := CollapseSpaces(rest);
      assert CollapseSpaces(s) == " " + c;
      assert (" " + c)[1..] == c;
    } else {
      var tail := s[1..];
      CollapseKeepsWords(tail);
      var c := CollapseSpaces(tail);
      assert CollapseSpaces(s) == [s[0]] + c;
      assert (c == [] || IsSpace(c[0])) <==> (tail == [] || IsSpace(tail[0]));
      WordsCons(s[0], c);
      WordsCons(s[0], tail);
      assert [s[0]] + tail == s;
    }
  }

  /** Putting one character in front of a single-spaced text whose first character is not a space. */
  lemma PrependChar(x: char, c: string)
    requires SingleSpaced(c) && (IsSpace(x) ==> x == ' ' && (c != [] ==> !IsSpace(c[0])))
    ensures SingleSpaced([x] + c)
    ensures NonSpaces([x] + c) == (if IsSpace(x) then [] else [x]) + NonSpaces(c)
  {
    var t := [x] + c;
    assert t[1..] == c;
    forall i | 0 <= i < |t| && IsSpace(t[i]) ensures t[i] == ' ' && (i + 1 < |t| ==> !IsSpace(t[i + 1])) {
      if i > 0 {
        assert t[i] == c[i - 1];
        if i + 1 < |t| {
          assert t[i + 1] == c[i];
        }
      } else if |t| > 1 {
        assert t[1] == c[0];
      }
    }
  }

  /**
   * `sanitize_spaces(value)`: the result is single-spaced with clean ends, and holds exactly the
   * words of `value`, in order, and so its non-whitespace characters; `SanitizeIsCanonical` shows
   * that no other text meets this contract.
   */
  function SanitizeSpaces(value: string): (r: string)
    ensures Sanitized(r)
    ensures NonSpaces(r) == NonSpaces(value)
    ensures Words(r) == Words(value)
  {
    var c := CollapseSpaces(value);
    StripKeepsSingleSpaced(c);
    StripKeepsNonSpaces(c);
    CollapseKeepsWords(value);
    LStripKeepsWords(c);
    RStripKeepsWords(LStrip(c));
    Strip(c)
  }

  /**
   * The contract of `SanitizeSpaces` determines its result: a sanitized text is the only sanitized
   * text with its words.
   */
  lemma SanitizeIsCanonical(value: string, s: string)
    requires Sanitized(s) && Words(s) == Words(value)
    ensures s == SanitizeSpaces(value)
  {
    SanitizedByWords(s, SanitizeSpaces(value));
  }

  lemma {:induction false} SanitizedByWords(a: string, b: string)
    requires Sanitized(a) && Sanitized(b) && Words(a) == Words(b)
    ensures a == b
    decreases |a|
  {
    if a != [] {
      SanitizedHasWords(a);
    }
    if b != [] {
      SanitizedHasWords(b);
    }
    if a != [] && b != [] {
      var wa, ra := SanitizedSplit(a);
      var wb, rb := SanitizedSplit(b);
      if ra != [] {
        SanitizedHasWords(ra);
      }
      if rb != [] {
        SanitizedHasWords(rb);
      }
      assert wa == Words(a)[0] == Words(b)[0] == wb;
      if ra != [] && rb != [] {
        assert Words(ra) == Words(a)[1..] == Words(b)[1..] == Words(rb);
        SanitizedByWords(ra, rb);
      }
    }
  }

  lemma SanitizedHasWords(a: string)
    requires Sanitized(a) && a != []
    ensures Words(a) != []
  {
  }

  /**
   * A sanitized text that is not empty is a word alone, or a word, one space and a shorter
   * sanitized text holding the remaining words.
   */
  lemma SanitizedSplit(a: string) returns (w: string, rest: string)
    requires Sanitized(a) && a != []
    ensures rest == [] ==> a == w && Words(a) == [w]
    ensures rest != [] ==> a == w + " " + rest && Sanitized(rest) && Words(a) == [w] + Words(rest)
  {
    w := Word(a);
    if |w| < |a| {
      rest := a[|w| + 1..];
      assert a[|w|..][0] == a[|w|];
      assert |w| + 1 < |a|;
      SingleSpacedSlice(a, |w| + 1, |a|);
      assert a[|w|..][1..] == rest;
      assert rest[0] == a[|w| + 1];
      assert rest[|rest| - 1] == a[|a| - 1];
      assert a == w + " " + rest;
    } else {
      rest := [];
      assert a[|w|..] == [];
    }
  }

  /** Sanitizing twice is sanitizing once. */
  lemma SanitizeIdempotent(value: string)
    ensures SanitizeSpaces(SanitizeSpaces(value)) == SanitizeSpaces(value)
  {
    SanitizedIsFixed(SanitizeSpaces(value));
  }

  /** A value already in sanitized form is left as it is. */
  lemma SanitizedIsFixed(s: string)
    requires Sanitized(s)
    ensures SanitizeSpaces(s) == s
  {
    CollapseSingleSpaced(s);
    StripClean(s);
  }

  lemma {:induction false} CollapseSingleSpaced(s: string)
    requires SingleSpaced(s)
    ensures CollapseSpaces(s) == s
    decreases |s|
  {
    if s != [] {
      SingleSpacedSlice(s, 1, |s|);
      CollapseSingleSpaced(s[1..]);
      if IsSpace(s[0]) {
        SpaceThenWord(s);
        assert CollapseSpaces(s) == " " + CollapseSpaces(s[1..]);
      } else {
        assert CollapseSpaces(s) == [s[0]] + CollapseSpaces(s[1..]);
      }
    }
  }

  /** In a single-spaced value a space is one `' '`, followed by something else. */
  lemma SpaceThenWord(s: string)
    requires SingleSpaced(s) && s != [] && IsSpace(s[0])
    ensures s[0] == ' ' && LStrip(s) == s[1..]
  {
    assert LStrip(s) == LStrip(s[1..]);
    if |s| > 1 {
      assert !IsSpace(s[1]);
      assert s[1..][0] == s[1];
    }
  }

  /** Stripping a value with no whitespace at its ends changes nothing. */
  lemma StripClean(s: string)
    requires s != [] ==> !IsSpace(s[0]) && !IsSpace(s[|s| - 1])
    ensures Strip(s) == s
  {
    assert LStrip(s) == s;
    assert RStrip(s) == s;
  }

  lemma SingleSpacedSlice(s: string, a: nat, b: nat)
    requires SingleSpaced(s) && a <= b <= |s|
    ensures SingleSpaced(s[a..b])
  {
    forall i | 0 <= i < b - a && IsSpace(s[a..b][i])
      ensures s[a..b][i] == ' ' && (i + 1 < b - a ==> !IsSpace(s[a..b][i + 1]))
    {
      assert s[a..b][i] == s[a + i];
      if i + 1 < b - a {
        assert s[a..b][i + 1] == s[a + i + 1];
      }
    }
  }

  lemma StripKeepsSingleSpaced(s: string)
    requires SingleSpaced(s)
    ensures SingleSpaced(Strip(s))
  {
    var l := LStrip(s);
    SingleSpacedSlice(s, |s| - |l|, |s|);
    var r := RStrip(l);
    SingleSpacedSlice(l, 0, |r|);
  }

  lemma {:induction false} NonSpacesAppend(a: string, b: string)
    ensures NonSpaces(a + b) == NonSpaces(a) + NonSpaces(b)
    decreases |a|
  {
    if a == [] {
      assert a + b == b;
    } else {
      assert (a + b)[0] == a[0] && (a + b)[1..] == a[1..] + b;
      NonSpacesAppend(a[1..], b);
    }
  }

  lemma {:induction false} AllSpacesVanish(s: string)
    requires forall i :: 0 <= i < |s| ==> IsSpace(s[i])
    ensures NonSpaces(s) == []
    decreases |s|
  {
    if s != [] {
      AllSpacesVanish(s[1..]);
    }
  }

  lemma LStripKeepsNonSpaces(s: string)
    ensures NonSpaces(LStrip(s)) == NonSpaces(s)
  {
    var r := LStrip(s);
    var k := |s| - |r|;
    assert s == s[..k] + r;
    NonSpacesAppend(s[..k], r);
    AllSpacesVanish(s[..k]);
  }

  lemma RStripKeepsNonSpaces(s: string)
    ensures NonSpaces(RStrip(s)) == NonSpaces(s)
  {
    var r := RStrip(s);
    assert s == r + s[|r|..];
    NonSpacesAppend(r, s[|r|..]);
    AllSpacesVanish(s[|r|..]);
  }

  lemma StripKeepsNonSpaces(s: string)
    ensures NonSpaces(Strip(s)) == NonSpaces(s)
  {
    LStripKeepsNonSpaces(s);
    RStripKeepsNonSpaces(LStrip(s));
  }

  /** `validate_min_length(value, min_length)`: the stripped value must have `min_length` characters. */
  function ValidateMinLength(value: string, minLength: int): (r: Outcome<string>)
    ensures r.Pass? <==> |Strip(value)| >= minLength
    ensures r.Fail? ==> r.error == TooShort(minLength)
  {
    if |Strip(value)| < minLength then Fail(TooShort(minLength)) else Pass
  }

  /** Padding does not count: a value and its stripped form get the same verdict. */
  lemma MinLengthIgnoresPadding(value: string, minLength: int)
    ensures ValidateMinLength(Strip(value), minLength) == ValidateMinLength(value, minLength)
  {
    StripClean(Strip(value));
  }
}
