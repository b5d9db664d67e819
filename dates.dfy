/**
 * `normalizeDate`: free text to a `YYYY-MM-DD` date.
 *
 * The current date is an input: `today` and `tomorrow` are the process's
 * local calendar dates (the source reads the system clock and lets the
 * JavaScript `Date` roll the day over), and the current year fills in a
 * missing year.
 */
module Dates {
  import opened Options
  import opened Text
  import opened Calendar

  /** A calendar day as the system clock reports it. */
  datatype Day = Day(year: nat, month: nat, day: nat)

  /** What the engine reads from the clock: today's and tomorrow's local date. */
  datatype Clock = Clock(today: Day, tomorrow: Day)

  function FormatDay(d: Day): string {
    DateText(d.year, d.month, d.day)
  }

  const MonthNames: seq<string> := [
    "january", "february", "march", "april", "may", "june",
    "july", "august", "september", "october", "november", "december"
  ]

  /** Index of the first month, in calendar order, whose name starts with `token`. */
  function FirstMonth(token: string, from: nat := 0): (r: Option<nat>)
    requires from <= |MonthNames|
    decreases |MonthNames| - from
    ensures r.Some? ==> from <= r.value < |MonthNames|
  {
    if from == |MonthNames| then None
    else if StartsWith(MonthNames[from], token) then Some(from)
    else FirstMonth(token, from + 1)
  }

  /** The month found is the first from `from` on whose name starts with the token; with none, no month is found. */
  lemma {:induction false} FirstMonthIsFirst(token: string, from: nat)
    requires from <= |MonthNames|
    decreases |MonthNames| - from
    ensures var r := FirstMonth(token, from);
            && (r.Some? ==> StartsWith(MonthNames[r.value], token))
            && (r.Some? ==> forall j :: from <= j < r.value ==> !StartsWith(MonthNames[j], token))
            && (r.None? ==> forall j :: from <= j < |MonthNames| ==> !StartsWith(MonthNames[j], token))
  {
    if from < |MonthNames| && !StartsWith(MonthNames[from], token) {
      FirstMonthIsFirst(token, from + 1);
    }
  }

  predicate IsDateSeparator(c: char) { c == '/' || c == '-' }

  /** A numeric date: month, day and the year if one was written. */
  datatype NumericDate = NumericDate(month: nat, day: nat, year: Option<nat>)

  /** `^(\d{1,2})[\/\-](\d{1,2})(?:[\/\-](\d{4}))?$`. */
  function SlashDate(s: string): Option<NumericDate> {
    var n1 := DigitRun(s);
    if n1 < 1 || n1 > 2 || n1 == |s| || !IsDateSeparator(s[n1]) then None
    else
      var r := s[n1 + 1..];
      var n2 := DigitRun(r);
      if n2 < 1 || n2 > 2 then None
      else
        var month := DigitsValue(s[..n1]);
        var day := DigitsValue(r[..n2]);
        var y := r[n2..];
        if y == "" then Some(NumericDate(month, day, None))
        else if |y| == 5 && IsDateSeparator(y[0]) && AllDigits(y[1..])
        then Some(NumericDate(month, day, Some(DigitsValue(y[1..]))))
        else None
  }

  /** `(?:,?\s*(\d{4}))?$` after the day: Some(year), Some(None) at the end of the text, None otherwise. */
  function YearTail(rest: string): Option<Option<nat>> {
    var c := if |rest| > 0 && rest[0] == ',' then rest[1..] else rest;
    var u := c[SpaceRun(c)..];
    if |u| == 4 && AllDigits(u) then Some(Some(DigitsValue(u)))
    else if rest == "" then Some(None)
    else None
  }

  /** `(\d{1,2})(?:,?\s*(\d{4}))?$`, trying a two-digit day before a one-digit one as the regex engine does. */
  function DayAndYear(s: string): Option<(nat, Option<nat>)> {
    var k := DigitRun(s);
    if k >= 2 && YearTail(s[2..]).Some? then
      DigitPrefix(s, 2);
      Some((DigitsValue(s[..2]), YearTail(s[2..]).value))
    else if k >= 1 && YearTail(s[1..]).Some? then
      DigitPrefix(s, 1);
      Some((DigitsValue(s[..1]), YearTail(s[1..]).value))
    else None
  }

  /** A prefix of the leading digit run is all digits. */
  lemma DigitPrefix(s: string, j: nat)
    requires j <= DigitRun(s)
    ensures AllDigits(s[..j])
  {
    var n := DigitRun(s);
    assert forall i :: 0 <= i < j ==> s[..j][i] == s[..n][i];
  }

  /** A month-name date: the month's index (0 = January), the day and the year if written. */
  datatype NamedDate = NamedDate(monthIndex: nat, day: nat, year: Option<nat>)

  /** `^(\w+)\s+(\d{1,2})(?:,?\s*(\d{4}))?$` followed by the month lookup. */
  function MonthNameDate(s: string): Option<NamedDate> {
    var w := WordRun(s);
    var gap := SpaceRun(s[w..]);
    if w == 0 || gap == 0 then None
    else NamedOf(FirstMonth(s[..w]), DayAndYear(DayPart(s)))
  }

  /** What follows the month token and the white space after it. */
  function DayPart(s: string): string {
    var w := WordRun(s);
    s[w + SpaceRun(s[w..])..]
  }

  /** The date a month lookup and a day-and-year match give, when both succeed. */
  function NamedOf(month: Option<nat>, dayYear: Option<(nat, Option<nat>)>): (r: Option<NamedDate>)
    ensures r.Some? <==> month.Some? && dayYear.Some?
  {
    if month.None? || dayYear.None? then None
    else Some(NamedDate(month.value, dayYear.value.0, dayYear.value.1))
  }

  /**
   * `normalizeDate`, on the trimmed, lower-cased text: `today`, `tomorrow`
   * or `tmrw`; any 4-2-2 digit text verbatim; `M/D[/YYYY]` with month 1..12
   * and day 1..31; a month-name prefix and a day (not range-checked);
   * otherwise null.
   */
  function NormalizeDate(input: string, clock: Clock): Option<string> {
    ReadDate(Lower(Trim(input)), clock)
  }

  /** The matching `normalizeDate` does, on text already trimmed and lower-cased. */
  function ReadDate(s: string, clock: Clock): Option<string> {
    if s == "today" then Some(FormatDay(clock.today))
    else if s == "tomorrow" || s == "tmrw" then Some(FormatDay(clock.tomorrow))
    else if IsIsoShape(s) then Some(s)
    else
      var numeric := SlashDate(s);
      if numeric.Some? && 1 <= numeric.value.month <= 12 && 1 <= numeric.value.day <= 31 then
        var d := numeric.value;
        Some(DateText(d.year.GetOr(clock.today.year), d.month, d.day))
      else
        match MonthNameDate(s)
        case None => None
        case Some(d) => Some(DateText(d.year.GetOr(clock.today.year), d.monthIndex + 1, d.day))
  }

  /** `today` is the clock's date today; `tomorrow` and its short form `tmrw` the next day's. */
  lemma RelativeDays(clock: Clock)
    ensures NormalizeDate("today", clock) == Some(FormatDay(clock.today))
    ensures NormalizeDate("tomorrow", clock) == Some(FormatDay(clock.tomorrow))
    ensures NormalizeDate("tmrw", clock) == Some(FormatDay(clock.tomorrow))
  {
    CleanIsFixed("today");
    CleanIsFixed("tomorrow");
    CleanIsFixed("tmrw");
  }

  /** Text made of digits and dashes only is already trimmed and lower-case. */
  lemma IsoIsClean(s: string)
    requires IsIsoShape(s)
    ensures Lower(Trim(s)) == s
  {
    assert s == s[..4] + [s[4]] + s[5..7] + [s[7]] + s[8..];
    NoUpperConcat(s[..4], [s[4]]);
    NoUpperConcat(s[..4] + [s[4]], s[5..7]);
    NoUpperConcat(s[..4] + [s[4]] + s[5..7], [s[7]]);
    NoUpperConcat(s[..4] + [s[4]] + s[5..7] + [s[7]], s[8..]);
    assert s[0] == s[..4][0] && s[9] == s[8..][1];
    CleanIsFixed(s);
  }

  /** Any 4-2-2 digit text is returned verbatim: neither the month nor the day is range-checked. */
  lemma IsoDateVerbatim(s: string, clock: Clock)
    requires IsIsoShape(s)
    ensures NormalizeDate(s, clock) == Some(s)
  {
    IsoIsClean(s);
    ReadIsoDate(s, clock);
  }

  lemma ReadIsoDate(s: string, clock: Clock)
    requires IsIsoShape(s)
    ensures ReadDate(s, clock) == Some(s)
  {
    assert |s| == 10;
  }

  /** The text `M/D`, `M-D`, or either followed by a separator and a four-digit year. */
  function NumericText(monthText: string, dayText: string, sep: char, yearSep: char, yearText: string): string {
    monthText + [sep] + dayText + (if yearText == "" then "" else [yearSep] + yearText)
  }

  predicate IsNumericParts(monthText: string, dayText: string, sep: char, yearSep: char, yearText: string) {
    && 1 <= |monthText| <= 2 && AllDigits(monthText)
    && 1 <= |dayText| <= 2 && AllDigits(dayText)
    && IsDateSeparator(sep) && IsDateSeparator(yearSep)
    && (yearText == "" || (|yearText| == 4 && AllDigits(yearText)))
  }

  lemma NumericIsClean(monthText: string, dayText: string, sep: char, yearSep: char, yearText: string)
    requires IsNumericParts(monthText, dayText, sep, yearSep, yearText)
    ensures var s := NumericText(monthText, dayText, sep, yearSep, yearText);
            Lower(Trim(s)) == s && IsDigit(s[0]) && !IsIsoShape(s)
  {
    var yearPart := if yearText == "" then "" else [yearSep] + yearText;
    var s := NumericText(monthText, dayText, sep, yearSep, yearText);
    assert HasNoUpper(yearPart) by {
      if yearText != "" {
        NoUpperConcat([yearSep], yearText);
      }
    }
    NoUpperConcat(monthText, [sep]);
    NoUpperConcat(monthText + [sep], dayText);
    NoUpperConcat(monthText + [sep] + dayText, yearPart);
    assert s[0] == monthText[0];
    assert s[|s| - 1] == if yearText == "" then dayText[|dayText| - 1] else yearText[3];
    CleanIsFixed(s);
    if |s| == 10 {
      assert s[..4][|monthText|] == sep;
    }
  }

  lemma SlashDateOfNumeric(monthText: string, dayText: string, sep: char, yearSep: char, yearText: string)
    requires IsNumericParts(monthText, dayText, sep, yearSep, yearText)
    ensures SlashDate(NumericText(monthText, dayText, sep, yearSep, yearText))
         == Some(NumericDate(DigitsValue(monthText), DigitsValue(dayText),
                             if yearText == "" then None else Some(DigitsValue(yearText))))
  {
    var yearPart := if yearText == "" then "" else [yearSep] + yearText;
    var rest := dayText + yearPart;
    var s := NumericText(monthText, dayText, sep, yearSep, yearText);
    assert s == monthText + ([sep] + rest);
    DigitRunOfDigits(monthText, [sep] + rest);
    assert s[..|monthText|] == monthText;
    assert s[|monthText| + 1..] == rest;
    DigitRunOfDigits(dayText, yearPart);
    assert rest[..|dayText|] == dayText;
    assert rest[|dayText|..] == yearPart;
    if yearText != "" {
      assert yearPart[1..] == yearText;
    }
  }

  lemma MonthNameOfNumeric(monthText: string, dayText: string, sep: char, yearSep: char, yearText: string)
    requires IsNumericParts(monthText, dayText, sep, yearSep, yearText)
    ensures MonthNameDate(NumericText(monthText, dayText, sep, yearSep, yearText)) == None
  {
    var yearPart := if yearText == "" then "" else [yearSep] + yearText;
    var rest := dayText + yearPart;
    var s := NumericText(monthText, dayText, sep, yearSep, yearText);
    assert s == monthText + ([sep] + rest);
    WordRunOfWord(monthText, [sep] + rest);
    assert s[|monthText|..] == [sep] + rest;
  }

  /** The numeric form: accepted exactly when the month is 1..12 and the day 1..31; the year defaults to the current one. */
  lemma NumericDateText(monthText: string, dayText: string, sep: char, yearSep: char, yearText: string, clock: Clock)
    requires IsNumericParts(monthText, dayText, sep, yearSep, yearText)
    ensures var month := DigitsValue(monthText);
            var day := DigitsValue(dayText);
            var year := if yearText == "" then clock.today.year else DigitsValue(yearText);
            NormalizeDate(NumericText(monthText, dayText, sep, yearSep, yearText), clock)
              == if 1 <= month <= 12 && 1 <= day <= 31 then Some(DateText(year, month, day)) else None
  {
    NumericIsClean(monthText, dayText, sep, yearSep, yearText);
    ReadNumericDate(monthText, dayText, sep, yearSep, yearText, clock);
  }

  lemma ReadNumericDate(monthText: string, dayText: string, sep: char, yearSep: char, yearText: string, clock: Clock)
    requires IsNumericParts(monthText, dayText, sep, yearSep, yearText)
    requires var s := NumericText(monthText, dayText, sep, yearSep, yearText);
             IsDigit(s[0]) && !IsIsoShape(s)
    ensures var month := DigitsValue(monthText);
            var day := DigitsValue(dayText);
            var year := if yearText == "" then clock.today.year else DigitsValue(yearText);
            ReadDate(NumericText(monthText, dayText, sep, yearSep, yearText), clock)
              == if 1 <= month <= 12 && 1 <= day <= 31 then Some(DateText(year, month, day)) else None
  {
    var s := NumericText(monthText, dayText, sep, yearSep, yearText);
    assert s != "today" && s != "tomorrow" && s != "tmrw" by {
      assert IsDigit(s[0]);
    }
    SlashDateOfNumeric(monthText, dayText, sep, yearSep, yearText);
    MonthNameOfNumeric(monthText, dayText, sep, yearSep, yearText);
  }

  /** `13/40` is rejected. */
  lemma ThirteenFortyRejected(clock: Clock)
    ensures NormalizeDate("13/40", clock) == None
  {
    DigitsValueOfTwo("13");
    DigitsValueOfTwo("40");
    assert NumericText("13", "40", '/', '/', "") == "13/40";
    NumericDateText("13", "40", '/', '/', "", clock);
  }

  predicate IsLowerWord(t: string) {
    |t| > 0 && forall i :: 0 <= i < |t| ==> 'a' <= t[i] <= 'z'
  }

  /** After the day: nothing, or an optional comma, optional white space and the four-digit year. */
  function YearPart(comma: bool, yearGap: string, yearText: string): string {
    if yearText == "" then "" else (if comma then "," else "") + yearGap + yearText
  }

  /** The text `<word> D` or `<word> DD`, white space between them, then the `YearPart`. */
  function NamedText(token: string, gap: string, dayText: string, comma: bool, yearGap: string, yearText: string): string {
    token + gap + dayText + YearPart(comma, yearGap, yearText)
  }

  predicate IsNamedParts(token: string, gap: string, dayText: string, yearGap: string, yearText: string) {
    && IsLowerWord(token)
    && gap != "" && AllSpaces(gap)
    && 1 <= |dayText| <= 2 && AllDigits(dayText)
    && AllSpaces(yearGap)
    && (yearText == "" || (|yearText| == 4 && AllDigits(yearText)))
  }

  function YearOf(yearText: string): Option<nat>
    requires AllDigits(yearText)
  {
    if yearText == "" then None else Some(DigitsValue(yearText))
  }

  lemma YearPartIsClean(comma: bool, yearGap: string, yearText: string)
    requires AllSpaces(yearGap) && (yearText == "" || (|yearText| == 4 && AllDigits(yearText)))
    ensures var y := YearPart(comma, yearGap, yearText);
            HasNoUpper(y) && (y == [] || IsDigit(y[|y| - 1]))
  {
    if yearText != "" {
      var c: string := if comma then "," else "";
      NoUpperConcat(c, yearGap);
      NoUpperConcat(c + yearGap, yearText);
      assert YearPart(comma, yearGap, yearText)[|YearPart(comma, yearGap, yearText)| - 1] == yearText[3];
    }
  }

  lemma NamedIsClean(token: string, gap: string, dayText: string, comma: bool, yearGap: string, yearText: string)
    requires IsNamedParts(token, gap, dayText, yearGap, yearText)
    ensures var s := NamedText(token, gap, dayText, comma, yearGap, yearText);
            Lower(Trim(s)) == s && IsLetter(s[0]) && IsSpace(s[|token|]) && !IsIsoShape(s)
  {
    var y := YearPart(comma, yearGap, yearText);
    var s := NamedText(token, gap, dayText, comma, yearGap, yearText);
    YearPartIsClean(comma, yearGap, yearText);
    NoUpperConcat(token, gap);
    NoUpperConcat(token + gap, dayText);
    NoUpperConcat(token + gap + dayText, y);
    assert s[0] == token[0];
    assert s[|token|] == gap[0];
    assert s[|s| - 1] == if y == [] then dayText[|dayText| - 1] else y[|y| - 1];
    CleanIsFixed(s);
    if |s| == 10 {
      assert s[..4][0] == token[0];
    }
  }

  /** The optional year after the day. */
  lemma YearTailOfNamed(comma: bool, yearGap: string, yearText: string)
    requires AllSpaces(yearGap) && (yearText == "" || (|yearText| == 4 && AllDigits(yearText)))
    ensures YearTail(YearPart(comma, yearGap, yearText)) == Some(YearOf(yearText))
  {
    if yearText != "" {
      var rest := YearPart(comma, yearGap, yearText);
      var c := if |rest| > 0 && rest[0] == ',' then rest[1..] else rest;
      assert c == yearGap + yearText by {
        if comma {
          assert rest == [','] + (yearGap + yearText);
        } else {
          assert rest == yearGap + yearText;
          assert rest[0] == if yearGap == [] then yearText[0] else yearGap[0];
        }
      }
      SpaceRunOfSpaces(yearGap, yearText);
      assert c[|yearGap|..] == yearText;
    }
  }

  /** Three digits are no year. */
  lemma ShortYearTail(t: string)
    requires |t| == 3 && AllDigits(t)
    ensures YearTail(t) == None
  {
    assert SpaceRun(t) == 0;
    assert t[0..] == t;
  }

  /** How the year part starts: a comma, white space, the year's first digit, or nothing at all. */
  lemma YearPartStart(comma: bool, yearGap: string, yearText: string)
    ensures var y := YearPart(comma, yearGap, yearText);
            || y == []
            || (comma && y[0] == ',')
            || (!comma && yearGap != [] && y[0] == yearGap[0])
            || (!comma && yearGap == [] && y == yearText)
  {
    if yearText != "" && !comma && yearGap == [] {
      assert YearPart(comma, yearGap, yearText) == "" + yearText;
    }
  }

  /**
   * The day and the optional year after the month name. With neither comma
   * nor white space before the year, a two-digit day is still read first,
   * as the regex engine tries `\d{1,2}` greedily and backs off to one digit.
   */
  lemma DayAndYearOfNamed(dayText: string, comma: bool, yearGap: string, yearText: string)
    requires 1 <= |dayText| <= 2 && AllDigits(dayText)
    requires AllSpaces(yearGap) && (yearText == "" || (|yearText| == 4 && AllDigits(yearText)))
    ensures DayAndYear(dayText + YearPart(comma, yearGap, yearText)) == Some((DigitsValue(dayText), YearOf(yearText)))
  {
    var y := YearPart(comma, yearGap, yearText);
    YearTailOfNamed(comma, yearGap, yearText);
    YearPartStart(comma, yearGap, yearText);
    if y == [] || !IsDigit(y[0]) {
      DayBeforeNonDigit(dayText, y);
    } else if |dayText| == 2 {
      DayOfTwoDigits(dayText, y);
    } else {
      assert y == yearText;
      DayOfOneDigit(dayText, y);
    }
  }

  /** The day's digits end where the year part starts with no digit. */
  lemma DayBeforeNonDigit(dayText: string, y: string)
    requires 1 <= |dayText| <= 2 && AllDigits(dayText) && YearTail(y).Some?
    requires y == [] || !IsDigit(y[0])
    ensures DayAndYear(dayText + y) == Some((DigitsValue(dayText), YearTail(y).value))
  {
    var rest := dayText + y;
    var d := |dayText|;
    assert rest[..d] == dayText;
    assert rest[d..] == y;
    DigitRunOfDigits(dayText, y);
  }

  /** Two day digits are read as the day whatever follows them. */
  lemma DayOfTwoDigits(dayText: string, y: string)
    requires |dayText| == 2 && AllDigits(dayText) && YearTail(y).Some?
    ensures DayAndYear(dayText + y) == Some((DigitsValue(dayText), YearTail(y).value))
  {
    var rest := dayText + y;
    assert rest[..2] == dayText;
    assert rest[2..] == y;
    assert IsDigit(rest[0]) && IsDigit(rest[1]);
    assert DigitRun(rest) >= 2;
  }

  /** One day digit glued to a four-digit year: the two-digit reading leaves three digits, no year, so the regex backs off to one. */
  lemma DayOfOneDigit(dayText: string, y: string)
    requires |dayText| == 1 && AllDigits(dayText) && |y| == 4 && AllDigits(y)
    ensures DayAndYear(dayText + y) == Some((DigitsValue(dayText), YearTail(y).value))
  {
    var rest := dayText + y;
    assert rest[..1] == dayText;
    assert rest[1..] == y;
    assert rest[2..] == y[1..];
    ShortYearTail(y[1..]);
    assert IsDigit(rest[0]);
  }

  /** A lower-case word, white space, then text starting with a digit: the word and the gap are the runs the pattern takes. */
  lemma WordGapSplit(token: string, gap: string, rest: string)
    requires IsLowerWord(token) && gap != "" && AllSpaces(gap) && rest != [] && IsDigit(rest[0])
    ensures var s := token + gap + rest;
            && WordRun(s) == |token| && s[..|token|] == token
            && SpaceRun(s[|token|..]) == |gap| && s[|token| + |gap|..] == rest
  {
    var s := token + gap + rest;
    assert s == token + (gap + rest);
    assert s[..|token|] == token;
    assert s[|token|..] == gap + rest;
    assert s[|token| + |gap|..] == rest;
    forall i | 0 <= i < |token| ensures IsWordChar(token[i]) {
    }
    assert (gap + rest)[0] == gap[0];
    WordRunOfWord(token, gap + rest);
    SpaceRunOfSpaces(gap, rest);
  }

  /** How the month-name form splits: the token is the word run, the gap the white space after it, then the day and year. */
  lemma NamedSplit(token: string, gap: string, dayText: string, comma: bool, yearGap: string, yearText: string)
    requires IsNamedParts(token, gap, dayText, yearGap, yearText)
    ensures var s := NamedText(token, gap, dayText, comma, yearGap, yearText);
            && WordRun(s) == |token| && s[..|token|] == token
            && SpaceRun(s[|token|..]) == |gap|
            && s[|token| + |gap|..] == dayText + YearPart(comma, yearGap, yearText)
  {
    var rest := dayText + YearPart(comma, yearGap, yearText);
    assert NamedText(token, gap, dayText, comma, yearGap, yearText) == token + gap + rest;
    assert rest[0] == dayText[0];
    WordGapSplit(token, gap, rest);
  }

  /** The month-name pattern on a text already split into the word, the gap and the rest. */
  lemma MonthNameDateOfSplit(s: string, token: string, gapLength: nat, rest: string)
    requires |token| > 0 && gapLength > 0
    requires WordRun(s) == |token| && s[..|token|] == token
    requires SpaceRun(s[|token|..]) == gapLength && s[|token| + gapLength..] == rest
    ensures MonthNameDate(s)
         == NamedOf(FirstMonth(token), DayAndYear(rest))
  {
    var w := WordRun(s);
    var g := SpaceRun(s[w..]);
    assert w == |token| && g == gapLength;
    assert DayPart(s) == rest && s[..w] == token;
  }

  lemma MonthNameOfNamed(token: string, gap: string, dayText: string, comma: bool, yearGap: string, yearText: string)
    requires IsNamedParts(token, gap, dayText, yearGap, yearText)
    ensures MonthNameDate(NamedText(token, gap, dayText, comma, yearGap, yearText))
         == match FirstMonth(token)
            case None => None
            case Some(i) => Some(NamedDate(i, DigitsValue(dayText), YearOf(yearText)))
  {
    var s := NamedText(token, gap, dayText, comma, yearGap, yearText);
    var rest := dayText + YearPart(comma, yearGap, yearText);
    NamedSplit(token, gap, dayText, comma, yearGap, yearText);
    DayAndYearOfNamed(dayText, comma, yearGap, yearText);
    MonthNameDateOfSplit(s, token, |gap|, rest);
  }

  /**
   * The month-name form: the month is the first in calendar order whose name
   * starts with the token, the day is taken as written (not range-checked)
   * and the year defaults to the current one; a token that starts no month
   * name gives null.
   */
  lemma NamedDateText(token: string, gap: string, dayText: string, comma: bool, yearGap: string, yearText: string, clock: Clock)
    requires IsNamedParts(token, gap, dayText, yearGap, yearText)
    ensures var year := if yearText == "" then clock.today.year else DigitsValue(yearText);
            NormalizeDate(NamedText(token, gap, dayText, comma, yearGap, yearText), clock)
              == match FirstMonth(token)
                 case None => None
                 case Some(i) => Some(DateText(year, i + 1, DigitsValue(dayText)))
  {
    NamedIsClean(token, gap, dayText, comma, yearGap, yearText);
    ReadNamedDate(token, gap, dayText, comma, yearGap, yearText, clock);
  }

  lemma ReadNamedDate(token: string, gap: string, dayText: string, comma: bool, yearGap: string, yearText: string, clock: Clock)
    requires IsNamedParts(token, gap, dayText, yearGap, yearText)
    requires var s := NamedText(token, gap, dayText, comma, yearGap, yearText);
             IsLetter(s[0]) && IsSpace(s[|token|]) && !IsIsoShape(s)
    ensures var year := if yearText == "" then clock.today.year else DigitsValue(yearText);
            ReadDate(NamedText(token, gap, dayText, comma, yearGap, yearText), clock)
              == match FirstMonth(token)
                 case None => None
                 case Some(i) => Some(DateText(year, i + 1, DigitsValue(dayText)))
  {
    var s := NamedText(token, gap, dayText, comma, yearGap, yearText);
    ReadWordDate(s, |token|, clock);
    MonthNameOfNamed(token, gap, dayText, comma, yearGap, yearText);
  }

  /** A text that starts with a letter and has white space inside can only be a month-name date. */
  lemma ReadWordDate(s: string, k: nat, clock: Clock)
    requires k < |s| && IsLetter(s[0]) && IsSpace(s[k]) && !IsIsoShape(s)
    ensures ReadDate(s, clock)
         == match MonthNameDate(s)
            case None => None
            case Some(d) => Some(DateText(d.year.GetOr(clock.today.year), d.monthIndex + 1, d.day))
  {
    assert s != "today" && s != "tomorrow" && s != "tmrw" by {
      assert IsSpace(s[k]);
    }
    assert DigitRun(s) == 0;
  }

  /** `nov 5 2025`, `nov  5`, `nov 5,2025`: the white space and the comma before the year are optional. */
  lemma NamedVariants(token: string, dayText: string, yearText: string, clock: Clock)
    requires IsNamedParts(token, " ", dayText, "", yearText) && FirstMonth(token).Some?
    ensures NormalizeDate(NamedText(token, " ", dayText, false, " ", yearText), clock)
         == NormalizeDate(NamedText(token, " ", dayText, true, " ", yearText), clock)
    ensures NormalizeDate(NamedText(token, "  ", dayText, true, "", yearText), clock)
         == NormalizeDate(NamedText(token, " ", dayText, true, " ", yearText), clock)
  {
    NamedDateText(token, " ", dayText, false, " ", yearText, clock);
    NamedDateText(token, " ", dayText, true, " ", yearText, clock);
    NamedDateText(token, "  ", dayText, true, "", yearText, clock);
  }

  /**
   * The forms `normalizeDate` reads, on the trimmed, lower-cased text:
   * `today`, `tomorrow` or `tmrw`; any 4-2-2 digit dash text; `M/D[/YYYY]`
   * with month 1..12 and day 1..31; a word that starts a month name, white
   * space, one or two digits and an optional year.
   */
  ghost predicate IsDateForm(s: string) {
    || s == "today" || s == "tomorrow" || s == "tmrw"
    || IsIsoShape(s)
    || (exists monthText, dayText, sep, yearSep, yearText ::
          && IsNumericParts(monthText, dayText, sep, yearSep, yearText)
          && s == NumericText(monthText, dayText, sep, yearSep, yearText)
          && 1 <= DigitsValue(monthText) <= 12 && 1 <= DigitsValue(dayText) <= 31)
    || (exists token, gap, dayText, comma, yearGap, yearText ::
          && IsNamedParts(token, gap, dayText, yearGap, yearText)
          && s == NamedText(token, gap, dayText, comma, yearGap, yearText)
          && FirstMonth(token).Some?)
  }

  /** `normalizeDate` gives a date exactly for the accepted forms; anything else gives null. */
  lemma DateFormsOnly(input: string, clock: Clock)
    ensures NormalizeDate(input, clock).Some? <==> IsDateForm(Lower(Trim(input)))
  {
    ReadDateForms(Lower(Trim(input)), clock);
  }

  lemma ReadDateForms(s: string, clock: Clock)
    ensures ReadDate(s, clock).Some? <==> IsDateForm(s)
  {
    if ReadDate(s, clock).Some? {
      ReadDateHasForm(s, clock);
    }
    if IsDateForm(s) && !(s == "today" || s == "tomorrow" || s == "tmrw") && !IsIsoShape(s) {
      if exists monthText, dayText, sep, yearSep, yearText ::
           && IsNumericParts(monthText, dayText, sep, yearSep, yearText)
           && s == NumericText(monthText, dayText, sep, yearSep, yearText)
           && 1 <= DigitsValue(monthText) <= 12 && 1 <= DigitsValue(dayText) <= 31
      {
        var monthText, dayText, sep, yearSep, yearText :|
          && IsNumericParts(monthText, dayText, sep, yearSep, yearText)
          && s == NumericText(monthText, dayText, sep, yearSep, yearText)
          && 1 <= DigitsValue(monthText) <= 12 && 1 <= DigitsValue(dayText) <= 31;
        NumericIsClean(monthText, dayText, sep, yearSep, yearText);
        ReadNumericDate(monthText, dayText, sep, yearSep, yearText, clock);
      } else {
        var token, gap, dayText, comma, yearGap, yearText :|
          && IsNamedParts(token, gap, dayText, yearGap, yearText)
          && s == NamedText(token, gap, dayText, comma, yearGap, yearText)
          && FirstMonth(token).Some?;
        NamedIsClean(token, gap, dayText, comma, yearGap, yearText);
        ReadNamedDate(token, gap, dayText, comma, yearGap, yearText, clock);
      }
    }
  }

  lemma ReadDateHasForm(s: string, clock: Clock)
    requires ReadDate(s, clock).Some?
    ensures IsDateForm(s)
  {
    if !(s == "today" || s == "tomorrow" || s == "tmrw") && !IsIsoShape(s) {
      var numeric := SlashDate(s);
      if numeric.Some? && 1 <= numeric.value.month <= 12 && 1 <= numeric.value.day <= 31 {
        var monthText, dayText, sep, yearSep, yearText := SlashDateParts(s);
        assert s == NumericText(monthText, dayText, sep, yearSep, yearText);
      } else {
        assert MonthNameDate(s).Some?;
        var token, gap, dayText, comma, yearGap, yearText := MonthNameParts(s);
        assert s == NamedText(token, gap, dayText, comma, yearGap, yearText);
      }
    }
  }

  /** A text the numeric pattern matches is a `NumericText`. */
  lemma SlashDateParts(s: string) returns (monthText: string, dayText: string, sep: char, yearSep: char, yearText: string)
    requires SlashDate(s).Some?
    ensures IsNumericParts(monthText, dayText, sep, yearSep, yearText)
    ensures s == NumericText(monthText, dayText, sep, yearSep, yearText)
    ensures SlashDate(s).value.month == DigitsValue(monthText) && SlashDate(s).value.day == DigitsValue(dayText)
  {
    var n1 := DigitRun(s);
    var n2 := DigitRun(s[n1 + 1..]);
    monthText, dayText, sep, yearSep, yearText := NumericSplit(s, n1, n2);
  }

  /** The split the numeric pattern makes: month digits, separator, day digits, then nothing or a separator and a year. */
  lemma NumericSplit(s: string, n1: nat, n2: nat) returns (monthText: string, dayText: string, sep: char, yearSep: char, yearText: string)
    requires 1 <= n1 <= 2 && n1 < |s| && IsDateSeparator(s[n1]) && AllDigits(s[..n1])
    requires var r := s[n1 + 1..];
             && 1 <= n2 <= 2 && n2 <= |r| && AllDigits(r[..n2])
             && (r[n2..] == "" || (|r[n2..]| == 5 && IsDateSeparator(r[n2..][0]) && AllDigits(r[n2..][1..])))
    ensures IsNumericParts(monthText, dayText, sep, yearSep, yearText)
    ensures s == NumericText(monthText, dayText, sep, yearSep, yearText)
    ensures monthText == s[..n1] && dayText == s[n1 + 1..][..n2]
  {
    var r := s[n1 + 1..];
    var y := r[n2..];
    monthText, sep, dayText := s[..n1], s[n1], r[..n2];
    if y == "" {
      yearSep, yearText := '/', "";
    } else {
      yearSep, yearText := y[0], y[1..];
      assert y == [yearSep] + yearText;
    }
    assert r == dayText + y;
    assert s == monthText + [sep] + r;
  }

  /** A text the year tail pattern matches is a `YearPart`. */
  lemma YearTailParts(rest: string) returns (comma: bool, yearGap: string, yearText: string)
    requires YearTail(rest).Some?
    ensures AllSpaces(yearGap) && (yearText == "" || (|yearText| == 4 && AllDigits(yearText)))
    ensures rest == YearPart(comma, yearGap, yearText)
  {
    var hasComma := |rest| > 0 && rest[0] == ',';
    var c := if hasComma then rest[1..] else rest;
    var k := SpaceRun(c);
    var u := c[k..];
    if |u| == 4 && AllDigits(u) {
      comma, yearGap, yearText := YearSplit(rest, hasComma, k);
    } else {
      comma, yearGap, yearText := false, "", "";
    }
  }

  /** The split the year tail pattern makes: an optional comma, `k` white-space characters, four digits. */
  lemma YearSplit(rest: string, comma: bool, k: nat) returns (c: bool, yearGap: string, yearText: string)
    requires comma ==> |rest| > 0 && rest[0] == ','
    requires var t := if comma then rest[1..] else rest;
             && k <= |t| && (forall i :: 0 <= i < k ==> IsSpace(t[i]))
             && |t[k..]| == 4 && AllDigits(t[k..])
    ensures c == comma && AllSpaces(yearGap) && |yearText| == 4 && AllDigits(yearText)
    ensures rest == YearPart(c, yearGap, yearText)
  {
    var t := if comma then rest[1..] else rest;
    c, yearGap, yearText := comma, t[..k], t[k..];
    assert t == yearGap + yearText;
    assert rest == (if comma then "," else "") + t by {
      if comma {
        assert rest == [','] + rest[1..];
      }
    }
  }

  /** A prefix of a month name is a lower-case word. */
  lemma MonthPrefixIsLower(token: string)
    requires token != "" && FirstMonth(token).Some?
    ensures IsLowerWord(token)
  {
    FirstMonthIsFirst(token, 0);
    var i := FirstMonth(token).value;
    MonthNamesAreLower(i);
    assert token == MonthNames[i][..|token|];
  }

  lemma MonthNamesAreLower(i: nat)
    requires i < |MonthNames|
    ensures IsLowerWord(MonthNames[i])
  {
  }

  /** A text the month-name pattern matches, with a month found, is a `NamedText`. */
  lemma MonthNameParts(s: string) returns (token: string, gap: string, dayText: string, comma: bool, yearGap: string, yearText: string)
    requires MonthNameDate(s).Some?
    ensures IsNamedParts(token, gap, dayText, yearGap, yearText)
    ensures s == NamedText(token, gap, dayText, comma, yearGap, yearText)
    ensures FirstMonth(token).Some?
  {
    var w := WordRun(s);
    var g := SpaceRun(s[w..]);
    var t := s[w + g..];
    MonthNameDateSome(s);
    assert t == DayPart(s);
    var d := DayDigits(t);
    token, gap, dayText, comma, yearGap, yearText := NamedSplitParts(s, w, g, d);
  }

  /** How many digits the day-and-year pattern took as the day. */
  lemma DayDigits(t: string) returns (d: nat)
    requires DayAndYear(t).Some?
    ensures 1 <= d <= 2 && d <= |t| && AllDigits(t[..d]) && YearTail(t[d..]).Some?
  {
    if DigitRun(t) >= 2 && YearTail(t[2..]).Some? {
      d := 2;
    } else {
      d := 1;
    }
    DigitPrefix(t, d);
  }

  /** What a match of the month-name pattern says about its three parts. */
  lemma MonthNameDateSome(s: string)
    requires MonthNameDate(s).Some?
    ensures WordRun(s) > 0 && SpaceRun(s[WordRun(s)..]) > 0
    ensures DayAndYear(DayPart(s)).Some? && FirstMonth(s[..WordRun(s)]).Some?
  { }

  /** The split the month-name pattern makes: `w` word characters, `g` white-space characters, `d` day digits, the year tail. */
  lemma NamedSplitParts(s: string, w: nat, g: nat, d: nat) returns (token: string, gap: string, dayText: string, comma: bool, yearGap: string, yearText: string)
    requires 0 < w && 0 < g && w + g <= |s| && (forall i :: 0 <= i < g ==> IsSpace(s[w..][i]))
    requires FirstMonth(s[..w]).Some?
    requires var t := s[w + g..];
             1 <= d <= 2 && d <= |t| && AllDigits(t[..d]) && YearTail(t[d..]).Some?
    ensures IsNamedParts(token, gap, dayText, yearGap, yearText)
    ensures s == NamedText(token, gap, dayText, comma, yearGap, yearText)
    ensures FirstMonth(token).Some?
  {
    var t := s[w + g..];
    token, gap, dayText := s[..w], s[w..w + g], t[..d];
    forall i | 0 <= i < g ensures IsSpace(gap[i]) {
      assert gap[i] == s[w..][i];
    }
    comma, yearGap, yearText := YearTailParts(t[d..]);
    MonthPrefixIsLower(token);
    CutFourWays(s, w, g, d);
  }

  /** Cutting a text at `w`, `w + g` and `w + g + d` and joining the four pieces gives it back. */
  lemma CutFourWays(s: string, w: nat, g: nat, d: nat)
    requires w + g <= |s| && d <= |s[w + g..]|
    ensures s == s[..w] + s[w..w + g] + s[w + g..][..d] + s[w + g..][d..]
  {
    var t := s[w + g..];
    assert t == t[..d] + t[d..];
    assert s == s[..w] + s[w..w + g] + t;
  }

  /** The month found is the one at `i` when its name is the first to start with the token. */
  lemma FirstMonthOf(token: string, i: nat)
    requires i < |MonthNames| && StartsWith(MonthNames[i], token)
    requires forall j :: 0 <= j < i ==> !StartsWith(MonthNames[j], token)
    ensures FirstMonth(token) == Some(i)
  {
    FirstMonthIsFirst(token, 0);
  }

  lemma DiffersAt(name: string, token: string, k: nat)
    requires k < |token| && k < |name| && name[k] != token[k]
    ensures !StartsWith(name, token)
  {
    if |token| <= |name| {
      assert name[..|token|][k] == name[k];
    }
  }

  /** A prefix resolves to the first month it begins, in calendar order: `ma` is March, not May. */
  lemma MaIsMarch(token: string)
    requires token == "ma"
    ensures FirstMonth(token) == Some(2)
  {
    DiffersAt(MonthNames[0], token, 0);
    DiffersAt(MonthNames[1], token, 0);
    assert MonthNames[2][..2] == token;
    FirstMonthOf(token, 2);
  }

  /** `ju` is June, not July. */
  lemma JuIsJune(token: string)
    requires token == "ju"
    ensures FirstMonth(token) == Some(5)
  {
    DiffersAt(MonthNames[0], token, 1);
    forall j | 1 <= j < 5 ensures !StartsWith(MonthNames[j], token) {
      DiffersAt(MonthNames[j], token, 0);
    }
    assert MonthNames[5][..2] == token;
    FirstMonthOf(token, 5);
  }

  /** `nov` is November. */
  lemma NovIsNovember(token: string)
    requires token == "nov"
    ensures FirstMonth(token) == Some(10)
  {
    forall j | 0 <= j < 10 ensures !StartsWith(MonthNames[j], token) {
      DiffersAt(MonthNames[j], token, 0);
    }
    assert MonthNames[10][..3] == token;
    FirstMonthOf(token, 10);
  }

  /** Lower-casing and trimming bring in no digit. */
  lemma CleanHasNoDigit(input: string)
    requires forall i :: 0 <= i < |input| ==> !IsDigit(input[i])
    ensures var s := Lower(Trim(input));
            forall i :: 0 <= i < |s| ==> !IsDigit(s[i])
  {
    TrimHasNoDigit(input);
    LowerHasNoDigit(Trim(input));
  }

  lemma TrimHasNoDigit(input: string)
    requires forall i :: 0 <= i < |input| ==> !IsDigit(input[i])
    ensures forall i :: 0 <= i < |Trim(input)| ==> !IsDigit(Trim(input)[i])
  {
    TrimChars(input);
  }

  lemma LowerHasNoDigit(t: string)
    requires forall i :: 0 <= i < |t| ==> !IsDigit(t[i])
    ensures forall i :: 0 <= i < |Lower(t)| ==> !IsDigit(Lower(t)[i])
  {
  }

  /** A text with no digit is a date only if it is `today`, `tomorrow` or `tmrw`. */
  lemma NoDigitNoDate(input: string, clock: Clock)
    requires forall i :: 0 <= i < |input| ==> !IsDigit(input[i])
    requires Lower(Trim(input)) != "today" && Lower(Trim(input)) != "tomorrow" && Lower(Trim(input)) != "tmrw"
    ensures NormalizeDate(input, clock) == None
  {
    CleanHasNoDigit(input);
    ReadNoDigit(Lower(Trim(input)), clock);
  }

  lemma ReadNoDigit(s: string, clock: Clock)
    requires forall i :: 0 <= i < |s| ==> !IsDigit(s[i])
    requires s != "today" && s != "tomorrow" && s != "tmrw"
    ensures ReadDate(s, clock) == None
  {
    assert !IsIsoShape(s) by {
      if |s| == 10 {
        assert s[..4][0] == s[0];
      }
    }
    assert DigitRun(s) == 0;
    var w := WordRun(s);
    var gap := SpaceRun(s[w..]);
    if w > 0 && gap > 0 {
      var r := s[w + gap..];
      assert r == [] || r[0] == s[w + gap];
      assert DigitRun(r) == 0;
    }
  }
}
