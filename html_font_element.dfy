/** The legacy font-size parser of the <font size> attribute
    (HTMLFontElement.cpp), which implements the WHATWG HTML Living Standard's
    "rules for parsing a legacy font size" (Rendering section, "Fonts and
    colors").

    The source's charactersToIntStrict (StringToNumber.h, not part of this
    model) is taken to return the decimal value of the digit run, or 0 when
    that value does not fit in a 32-bit int. Additions on the C++ `int` are
    written out with 32-bit wrap-around. */
module FontSize {
  import opened Common

  predicate IsHtmlSpace(c: char)
  {
    c == ' ' || c == '\t' || c == '\n' || c == '\r' || c == '\U{000C}'
  }

  predicate IsAsciiDigit(c: char)
  {
    '0' <= c <= '9'
  }

  /** The end of the run of HTML spaces that starts at `i`. */
  function SkipSpaces(s: seq<char>, i: nat): (j: nat)
    requires i <= |s|
    ensures i <= j <= |s|
    ensures forall k :: i <= k < j ==> IsHtmlSpace(s[k])
    ensures j < |s| ==> !IsHtmlSpace(s[j])
    decreases |s| - i
  {
    if i == |s| || !IsHtmlSpace(s[i]) then i else SkipSpaces(s, i + 1)
  }

  /** The end of the run of ASCII digits that starts at `i`. */
  function SkipDigits(s: seq<char>, i: nat): (j: nat)
    requires i <= |s|
    ensures i <= j <= |s|
    ensures forall k :: i <= k < j ==> IsAsciiDigit(s[k])
    ensures j < |s| ==> !IsAsciiDigit(s[j])
    decreases |s| - i
  {
    if i == |s| || !IsAsciiDigit(s[i]) then i else SkipDigits(s, i + 1)
  }

  /** The decimal value of a run of ASCII digits. */
  function DigitsValue(ds: seq<char>): nat
  {
    if ds == [] then 0
    else DigitsValue(ds[..|ds| - 1]) * 10 + (if IsAsciiDigit(ds[|ds| - 1]) then (ds[|ds| - 1] - '0') as int else 0)
  }

  /** charactersToIntStrict on a run of digits: its value, or 0 when it
      overflows an int. */
  function ToIntStrict(ds: seq<char>): (v: int)
    ensures 0 <= v <= IntMax
  {
    if DigitsValue(ds) <= IntMax then DigitsValue(ds) else 0
  }

  function ClampSize(v: int): (r: int)
    ensures 1 <= r <= 7
    ensures 1 <= v <= 7 ==> r == v
  {
    if v > 7 then 7 else if v < 1 then 1 else v
  }

  datatype Mode = RelativePlus | RelativeMinus | Absolute

  /** Where the digits start, after the leading spaces and an optional sign. */
  function DigitStart(s: seq<char>, start: nat): (d: nat)
    requires start < |s|
    ensures d == start || d == start + 1
  {
    if s[start] == '+' || s[start] == '-' then start + 1 else start
  }

  function ModeAt(s: seq<char>, start: nat): Mode
    requires start < |s|
  {
    if s[start] == '+' then RelativePlus else if s[start] == '-' then RelativeMinus else Absolute
  }

  /** The sign's effect on the value read, with the C++ int's wrap-around on
      `value += 3`. */
  function Adjust(mode: Mode, value: int): int
  {
    match mode
    case RelativePlus => Wrap32(value + 3)
    case RelativeMinus => 3 - value
    case Absolute => value
  }

  /** parseFontSize as written: the size, or None where the source returns
      false. */
  function ParseFontSizeSpec(s: seq<char>): (r: Option<int>)
    ensures r.Some? ==> 1 <= r.value <= 7
  {
    ParseFrom(s, SkipSpaces(s, 0))
  }

  /** The part of parseFontSize after the leading spaces, which end at `start`. */
  function ParseFrom(s: seq<char>, start: nat): (r: Option<int>)
    requires start <= |s|
    ensures r.Some? ==> 1 <= r.value <= 7
  {
    if start == |s| then None
    else
      var d := DigitStart(s, start);
      var e := SkipDigits(s, d);
      if e == d then None
      else Some(ClampSize(Adjust(ModeAt(s, start), ToIntStrict(s[d..e]))))
  }

  /** The loop of parseFontSize that skips leading HTML spaces. */
  method SkipLeadingSpaces(input: seq<char>) returns (position: nat)
    ensures position == SkipSpaces(input, 0)
  {
    position := 0;
    while position < |input|
      invariant position <= |input|
      invariant SkipSpaces(input, position) == SkipSpaces(input, 0)
    {
      if !IsHtmlSpace(input[position]) {
        break;
      }
      position := position + 1;
    }
  }

  /** The loop of parseFontSize that collects the digits starting at `start`. */
  method CollectDigits(input: seq<char>, start: nat) returns (digits: seq<char>, position: nat)
    requires start <= |input|
    ensures position == SkipDigits(input, start)
    ensures digits == input[start..position]
  {
    digits := [];
    position := start;
    while position < |input|
      invariant start <= position <= |input|
      invariant digits == input[start..position]
      invariant SkipDigits(input, position) == SkipDigits(input, start)
    {
      if !IsAsciiDigit(input[position]) {
        break;
      }
      digits := digits + [input[position]];
      position := position + 1;
    }
  }

  /** parseFontSize: skips HTML spaces, reads an optional sign, collects the
      digits that follow and stops at the first non-digit; the value is
      shifted by the sign and clamped to [1, 7]. */
  method ParseFontSize(input: seq<char>) returns (ok: bool, size: int)
    ensures ok <==> ParseFontSizeSpec(input).Some?
    ensures ok ==> size == ParseFontSizeSpec(input).value && 1 <= size <= 7
  {
    if |input| == 0 {
      return false, 0;
    }
    var position := SkipLeadingSpaces(input);
    if position == |input| {
      return false, 0;
    }
    var start := position;
    var mode: Mode;
    if input[position] == '+' {
      mode := RelativePlus;
      position := position + 1;
    } else if input[position] == '-' {
      mode := RelativeMinus;
      position := position + 1;
    } else {
      mode := Absolute;
    }
    assert mode == ModeAt(input, start) && position == DigitStart(input, start);
    var digits;
    digits, position := CollectDigits(input, position);
    if |digits| == 0 {
      return false, 0;
    }
    var value := ToIntStrict(digits);
    if mode == RelativePlus {
      value := Wrap32(value + 3);
    } else if mode == RelativeMinus {
      value := 3 - value;
    }
    if value > 7 {
      value := 7;
    }
    if value < 1 {
      value := 1;
    }
    return true, value;
  }

  /** Parsing fails exactly on input that is empty or all spaces, or where no
      ASCII digit follows the spaces and the optional sign. */
  lemma {:induction false} ParseFailsExactly(s: seq<char>)
    ensures ParseFontSizeSpec(s).None? <==>
      (forall k :: 0 <= k < |s| ==> IsHtmlSpace(s[k]))
      || (var start := SkipSpaces(s, 0);
          start < |s| && (DigitStart(s, start) == |s| || !IsAsciiDigit(s[DigitStart(s, start)])))
  {
    var start := SkipSpaces(s, 0);
    if start < |s| {
      assert !IsHtmlSpace(s[start]);
    }
  }

  /** Leading spaces do not change the result. */
  lemma {:induction false} LeadingSpacesIgnored(spaces: seq<char>, s: seq<char>)
    requires forall k :: 0 <= k < |spaces| ==> IsHtmlSpace(spaces[k])
    ensures ParseFontSizeSpec(spaces + s) == ParseFontSizeSpec(s)
  {
    var t := spaces + s;
    SkipSpacesFrom(t, 0, |spaces|);
    SkipSpacesShift(spaces, s, 0);
    ParseFromShift(spaces, s, SkipSpaces(s, 0));
  }

  /** What follows the spaces is parsed the same whatever precedes it. */
  lemma {:induction false} ParseFromShift(prefix: seq<char>, s: seq<char>, start: nat)
    requires start <= |s|
    ensures ParseFrom(prefix + s, |prefix| + start) == ParseFrom(s, start)
  {
    var t := prefix + s;
    var n := |prefix|;
    if start < |s| {
      var d := DigitStart(s, start);
      assert t[n + start] == s[start];
      assert DigitStart(t, n + start) == n + d;
      assert ModeAt(t, n + start) == ModeAt(s, start);
      SkipDigitsShift(prefix, s, d);
      var e := SkipDigits(s, d);
      assert t[n + d..n + e] == s[d..e];
    }
  }

  /** A skip that starts inside a run of spaces continues to the run's end. */
  lemma {:induction false} SkipSpacesFrom(s: seq<char>, i: nat, j: nat)
    requires i <= j <= |s|
    requires forall k :: i <= k < j ==> IsHtmlSpace(s[k])
    ensures SkipSpaces(s, i) == SkipSpaces(s, j)
    decreases j - i
  {
    if i < j {
      SkipSpacesFrom(s, i + 1, j);
    }
  }

  /** Skipping in the suffix of a concatenation is skipping in the suffix,
      shifted. */
  lemma {:induction false} SkipSpacesShift(prefix: seq<char>, s: seq<char>, i: nat)
    requires i <= |s|
    ensures SkipSpaces(prefix + s, |prefix| + i) == |prefix| + SkipSpaces(s, i)
    decreases |s| - i
  {
    if i < |s| {
      assert (prefix + s)[|prefix| + i] == s[i];
      if IsHtmlSpace(s[i]) {
        SkipSpacesShift(prefix, s, i + 1);
      }
    }
  }

  lemma {:induction false} SkipDigitsShift(prefix: seq<char>, s: seq<char>, i: nat)
    requires i <= |s|
    ensures SkipDigits(prefix + s, |prefix| + i) == |prefix| + SkipDigits(s, i)
    decreases |s| - i
  {
    if i < |s| {
      assert (prefix + s)[|prefix| + i] == s[i];
      if IsAsciiDigit(s[i]) {
        SkipDigitsShift(prefix, s, i + 1);
      }
    }
  }

  /** A sign after leading spaces is relative to 3: "  +2" is 5. */
  lemma ParsePlusAfterSpaces()
    ensures ParseFontSizeSpec("  +2") == Some(5)
  {
    assert SkipSpaces("  +2", 0) == 2;
    assert SkipDigits("  +2", 3) == 4;
    assert "  +2"[3..4] == "2";
    assert DigitsValue("2") == 2 by { assert "2"[..0] == []; }
  }

  /** "-1" is 3 - 1. */
  lemma ParseMinus()
    ensures ParseFontSizeSpec("-1") == Some(2)
  {
    assert SkipDigits("-1", 1) == 2;
    assert "-1"[1..2] == "1";
    assert DigitsValue("1") == 1 by { assert "1"[..0] == []; }
  }

  /** An absolute size above 7 is clamped to 7. */
  lemma ParseClamped()
    ensures ParseFontSizeSpec("9") == Some(7)
  {
    assert SkipDigits("9", 0) == 1;
    assert "9"[0..1] == "9";
    assert DigitsValue("9") == 9 by { assert "9"[..0] == []; }
  }

  /** Characters after the digits are ignored: "3px" is 3. */
  lemma ParseTrailingIgnored()
    ensures ParseFontSizeSpec("3px") == Some(3)
  {
    assert SkipDigits("3px", 0) == 1;
    assert "3px"[0..1] == "3";
    assert DigitsValue("3") == 3 by { assert "3"[..0] == []; }
  }

  /** A space between the sign and the digits is an error. */
  lemma ParseSpaceAfterSign()
    ensures ParseFontSizeSpec(" + 2") == None
  {
    assert SkipSpaces(" + 2", 0) == 1;
    assert SkipDigits(" + 2", 2) == 2;
  }

  // ---------------------------------------------------------------------------
  // The legacy font-size rules over unbounded integers.

  /** The rules as the HTML standard states them: the digit run is read as a
      mathematical integer, so no value overflows. */
  function LegacyFontSize(s: seq<char>): (r: Option<int>)
    ensures r.Some? ==> 1 <= r.value <= 7
  {
    var start := SkipSpaces(s, 0);
    if start == |s| then None
    else
      var d := DigitStart(s, start);
      var e := SkipDigits(s, d);
      if e == d then None
      else
        var value := DigitsValue(s[d..e]);
        var adjusted := match ModeAt(s, start)
                        case RelativePlus => value + 3
                        case RelativeMinus => 3 - value
                        case Absolute => value;
        Some(ClampSize(adjusted))
  }

  /** The source agrees with the standard whenever the digit run's value is
      at most 2^31 - 4, so that neither the conversion nor `value += 3`
      overflows. */
  lemma {:induction false} AgreesWithoutOverflow(s: seq<char>)
    requires var start := SkipSpaces(s, 0);
             start < |s| ==>
               var d := DigitStart(s, start);
               DigitsValue(s[d..SkipDigits(s, d)]) <= IntMax - 3
    ensures ParseFontSizeSpec(s) == LegacyFontSize(s)
  {
  }

  /** A larger relative size never gives a smaller result under the standard:
      "+N" is non-decreasing in N. */
  lemma {:induction false} RelativePlusMonotone(s: seq<char>, t: seq<char>)
    requires |s| > 0 && |t| > 0 && s[0] == '+' && t[0] == '+'
    requires SkipDigits(s, 1) == |s| > 1 && SkipDigits(t, 1) == |t| > 1
    requires DigitsValue(s[1..]) <= DigitsValue(t[1..])
    ensures LegacyFontSize(s).Some? && LegacyFontSize(t).Some?
    ensures LegacyFontSize(s).value <= LegacyFontSize(t).value
  {
    assert SkipSpaces(s, 0) == 0;
    assert SkipSpaces(t, 0) == 0;
    assert s[1..|s|] == s[1..];
    assert t[1..|t|] == t[1..];
  }

  /** "+2147483647": the digits fit in an int, but `value += 3` overflows and
      wraps to a negative number, which is clamped to 1 where the standard
      gives 7. */
  lemma PlusOverflowCounterexample()
    ensures ParseFontSizeSpec("+2147483647") == Some(1)
    ensures LegacyFontSize("+2147483647") == Some(7)
  {
    var s := "+2147483647";
    assert SkipSpaces(s, 0) == 0;
    assert SkipDigits(s, 1) == 11;
    assert s[1..11] == "2147483647";
    IntMaxDigits();
  }

  lemma IntMaxDigits()
    ensures DigitsValue("2147483647") == IntMax
  {
    var a: seq<char> := [];
    DigitsValueStep(a, '2', 0);
    a := a + ['2'];
    DigitsValueStep(a, '1', 2);
    a := a + ['1'];
    DigitsValueStep(a, '4', 21);
    a := a + ['4'];
    DigitsValueStep(a, '7', 214);
    a := a + ['7'];
    DigitsValueStep(a, '4', 2147);
    a := a + ['4'];
    DigitsValueStep(a, '8', 21474);
    a := a + ['8'];
    DigitsValueStep(a, '3', 214748);
    a := a + ['3'];
    DigitsValueStep(a, '6', 2147483);
    a := a + ['6'];
    DigitsValueStep(a, '4', 21474836);
    a := a + ['4'];
    DigitsValueStep(a, '7', 214748364);
    a := a + ['7'];
    assert a == "2147483647";
  }

  lemma ElevenNines()
    ensures DigitsValue("99999999999") == 99999999999
  {
    var b: seq<char> := [];
    DigitsValueStep(b, '9', 0);
    b := b + ['9'];
    DigitsValueStep(b, '9', 9);
    b := b + ['9'];
    DigitsValueStep(b, '9', 99);
    b := b + ['9'];
    DigitsValueStep(b, '9', 999);
    b := b + ['9'];
    DigitsValueStep(b, '9', 9999);
    b := b + ['9'];
    DigitsValueStep(b, '9', 99999);
    b := b + ['9'];
    DigitsValueStep(b, '9', 999999);
    b := b + ['9'];
    DigitsValueStep(b, '9', 9999999);
    b := b + ['9'];
    DigitsValueStep(b, '9', 99999999);
    b := b + ['9'];
    DigitsValueStep(b, '9', 999999999);
    b := b + ['9'];
    DigitsValueStep(b, '9', 9999999999);
    b := b + ['9'];
    assert b == "99999999999";
  }

  lemma DigitsValueStep(ds: seq<char>, c: char, v: nat)
    requires DigitsValue(ds) == v && IsAsciiDigit(c)
    ensures DigitsValue(ds + [c]) == v * 10 + (c - '0') as int
  {
    assert (ds + [c])[..|ds|] == ds;
  }

  /** "99999999999": the digit run overflows an int, charactersToIntStrict
      gives 0, and the size comes out as 1 where the standard gives 7. */
  lemma DigitOverflowCounterexample()
    ensures ParseFontSizeSpec("99999999999") == Some(1)
    ensures LegacyFontSize("99999999999") == Some(7)
  {
    var s := "99999999999";
    assert SkipSpaces(s, 0) == 0;
    assert SkipDigits(s, 0) == 11;
    assert s[0..11] == s;
    ElevenNines();
  }

  // ---------------------------------------------------------------------------
  // cssValueFromFontSizeNumber

  datatype FontSizeKeyword = XSmall | Small | Medium | Large | XLarge | XxLarge | WebkitXxxLarge

  /** The keyword for a legacy size 1..7. */
  function KeywordForSize(n: int): (k: FontSizeKeyword)
    requires 1 <= n <= 7
  {
    match n
    case 1 => XSmall
    case 2 => Small
    case 3 => Medium
    case 4 => Large
    case 5 => XLarge
    case 6 => XxLarge
    case _ => WebkitXxxLarge
  }

  function SizeForKeyword(k: FontSizeKeyword): (n: int)
    ensures 1 <= n <= 7
  {
    match k
    case XSmall => 1
    case Small => 2
    case Medium => 3
    case Large => 4
    case XLarge => 5
    case XxLarge => 6
    case WebkitXxxLarge => 7
  }

  /** The seven sizes and the seven keywords correspond one to one. */
  lemma KeywordRoundTrip(n: int, k: FontSizeKeyword)
    requires 1 <= n <= 7
    ensures SizeForKeyword(KeywordForSize(n)) == n
    ensures KeywordForSize(SizeForKeyword(k)) == k
  {
  }

  /** cssValueFromFontSizeNumber: None exactly when parsing fails. */
  function CssValueFromFontSizeNumber(s: seq<char>): (r: Option<FontSizeKeyword>)
    ensures r.None? <==> ParseFontSizeSpec(s).None?
    ensures r.Some? ==> SizeForKeyword(r.value) == ParseFontSizeSpec(s).value
  {
    match ParseFontSizeSpec(s)
    case None => None
    case Some(n) => Some(KeywordForSize(n))
  }
}
