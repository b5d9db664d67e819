/**
 * Times of day as the engine handles them: `HH:mm` text, the parser for
 * `H`, `H:MM` and their `am`/`pm` forms (`parseTimeTo24h`), the string
 * comparison used on them (`compareTime`) and minute arithmetic that wraps
 * at midnight (`addMinutes`, `getEndTime`).
 */
module Times {
  import opened Options
  import opened Text

  /** A well-formed 24-hour `HH:mm` text: hour 00..23, minute 00..59. */
  predicate IsTime(t: string) {
    && |t| == 5
    && AllDigits(t[..2]) && t[2] == ':' && AllDigits(t[3..])
    && DigitsValue(t[..2]) <= 23 && DigitsValue(t[3..]) <= 59
  }

  function HourOf(t: string): nat
    requires IsTime(t)
  {
    DigitsValue(t[..2])
  }

  function MinuteOf(t: string): nat
    requires IsTime(t)
  {
    DigitsValue(t[3..])
  }

  /** Minutes since midnight of an `HH:mm` text. */
  function Minutes(t: string): (n: nat)
    requires IsTime(t)
    ensures n < 1440
  {
    HourOf(t) * 60 + MinuteOf(t)
  }

  /** `${toTwo(hour)}:${toTwo(minute)}`. */
  function FormatTime(hour: nat, minute: nat): string {
    ToTwo(hour) + ":" + ToTwo(minute)
  }

  /** Formatting an in-range hour and minute gives a well-formed time with exactly that hour and minute. */
  lemma FormatTimeIsTime(hour: nat, minute: nat)
    requires hour <= 23 && minute <= 59
    ensures IsTime(FormatTime(hour, minute))
    ensures HourOf(FormatTime(hour, minute)) == hour && MinuteOf(FormatTime(hour, minute)) == minute
    ensures Minutes(FormatTime(hour, minute)) == hour * 60 + minute
  {
    ToTwoReadsBack(hour);
    ToTwoReadsBack(minute);
    var t := FormatTime(hour, minute);
    assert t[..2] == ToTwo(hour);
    assert t[3..] == ToTwo(minute);
  }

  /** Every well-formed time is the formatted form of its own hour and minute. */
  lemma TimeIsFormatted(t: string)
    requires IsTime(t)
    ensures t == FormatTime(HourOf(t), MinuteOf(t))
  {
    ToTwoOfDigits(t[..2]);
    ToTwoOfDigits(t[3..]);
    assert t == t[..2] + ":" + t[3..];
  }

  /** The optional `am`/`pm` group of the time pattern. */
  datatype Meridiem = NoMeridiem | Am | Pm

  function MeridiemText(ap: Meridiem): string {
    match ap
    case NoMeridiem => ""
    case Am => "am"
    case Pm => "pm"
  }

  /** What may follow the digits: `\s*(am|pm)?` up to the end of the text. */
  function MeridiemOf(tail: string): Option<Meridiem> {
    var u := tail[SpaceRun(tail)..];
    if u == "" then Some(NoMeridiem)
    else if u == "am" then Some(Am)
    else if u == "pm" then Some(Pm)
    else None
  }

  /** The 12-hour rule: `12am` is hour 0, `12pm` stays 12, any other `pm` hour gains 12. */
  function TwelveHour(hour: nat, ap: Meridiem): nat {
    match ap
    case NoMeridiem => hour
    case Am => if hour == 12 then 0 else hour
    case Pm => if hour != 12 then hour + 12 else hour
  }

  /**
   * `parseTimeTo24h`: the trimmed, lower-cased text must match
   * `^(\d{1,2})(?::(\d{2}))?\s*(am|pm)?$`; the hour is converted by the
   * 12-hour rule and the result is rejected unless hour <= 23 and minute <= 59.
   */
  function ParseTime(input: string): (r: Option<string>)
    ensures r.Some? ==> IsTime(r.value)
  {
    ReadTime(Lower(Trim(input)))
  }

  /** The match against the time pattern, on text already trimmed and lower-cased. */
  function ReadTime(s: string): (r: Option<string>)
    ensures r.Some? ==> IsTime(r.value)
  {
    var n := DigitRun(s);
    if n < 1 || n > 2 then None else ReadAfterHour(DigitsValue(s[..n]), s[n..])
  }

  /** The rest of the pattern after the hour digits, whose value is `hourDigits`. */
  function ReadAfterHour(hourDigits: nat, rest: string): (r: Option<string>)
    ensures r.Some? ==> IsTime(r.value)
  {
    var hasMinutes := |rest| >= 3 && rest[0] == ':' && IsDigit(rest[1]) && IsDigit(rest[2]);
    var tail := if hasMinutes then rest[3..] else rest;
    match MeridiemOf(tail)
    case None => None
    case Some(ap) =>
      var hour := TwelveHour(hourDigits, ap);
      var minute := if hasMinutes then DigitsValue(rest[1..3]) else 0;
      if hour > 23 || minute > 59 then None
      else
        FormatTimeIsTime(hour, minute);
        Some(FormatTime(hour, minute))
  }

  /** `\s*(am|pm)?` as it can end an accepted text: nothing, or white space and then `am` or `pm`. */
  function MeridiemPart(spaces: string, ap: Meridiem): string {
    if ap == NoMeridiem then "" else spaces + MeridiemText(ap)
  }

  /**
   * The text `H`, `HH`, `H:MM` or `HH:MM` followed by an optional `am`/`pm`,
   * which `spaces` separates from the digits.
   */
  function TimeText(hourText: string, minuteText: string, spaces: string, ap: Meridiem): string {
    hourText + (if minuteText == "" then "" else ":" + minuteText) + MeridiemPart(spaces, ap)
  }

  /** The parts of an accepted text: one or two hour digits, no minutes or two minute digits, white space. */
  predicate IsTimeParts(hourText: string, minuteText: string, spaces: string) {
    && 1 <= |hourText| <= 2 && AllDigits(hourText)
    && (minuteText == "" || (|minuteText| == 2 && AllDigits(minuteText)))
    && AllSpaces(spaces)
  }

  lemma MeridiemPartIsClean(spaces: string, ap: Meridiem)
    requires AllSpaces(spaces)
    ensures var m := MeridiemPart(spaces, ap);
            HasNoUpper(m) && (m == [] || (m[|m| - 1] == 'm' && m[0] != ':' && !IsDigit(m[0])))
  {
    var m := MeridiemPart(spaces, ap);
    if ap != NoMeridiem {
      NoUpperConcat(spaces, MeridiemText(ap));
      assert m[|m| - 1] == MeridiemText(ap)[1];
      assert m[0] == if spaces == [] then MeridiemText(ap)[0] else spaces[0];
    }
  }

  /** The accepted texts are already trimmed and lower-case. */
  lemma TimeTextIsClean(hourText: string, minuteText: string, spaces: string, ap: Meridiem)
    requires IsTimeParts(hourText, minuteText, spaces)
    ensures Lower(Trim(TimeText(hourText, minuteText, spaces, ap))) == TimeText(hourText, minuteText, spaces, ap)
  {
    var minutePart := if minuteText == "" then "" else ":" + minuteText;
    var m := MeridiemPart(spaces, ap);
    var x := TimeText(hourText, minuteText, spaces, ap);
    MeridiemPartIsClean(spaces, ap);
    assert HasNoUpper(minutePart) by {
      if minuteText != "" {
        NoUpperConcat(":", minuteText);
      }
    }
    NoUpperConcat(hourText, minutePart);
    NoUpperConcat(hourText + minutePart, m);
    assert x[0] == hourText[0];
    assert x[|x| - 1] == if m != [] then 'm' else if minuteText != "" then minuteText[1] else hourText[|hourText| - 1];
    CleanIsFixed(x);
  }

  /** How the pattern splits an accepted text: hour digits, optional minute group, meridiem. */
  lemma ReadTimeText(hourText: string, minuteText: string, spaces: string, ap: Meridiem)
    requires IsTimeParts(hourText, minuteText, spaces)
    ensures var hour := TwelveHour(DigitsValue(hourText), ap);
            var minute := if minuteText == "" then 0 else DigitsValue(minuteText);
            ReadTime(TimeText(hourText, minuteText, spaces, ap))
              == if hour <= 23 && minute <= 59 then Some(FormatTime(hour, minute)) else None
  {
    var rest := AfterHourPart(minuteText, spaces, ap);
    assert TimeText(hourText, minuteText, spaces, ap) == hourText + rest;
    AfterHourText(DigitsValue(hourText), minuteText, spaces, ap);
    ReadTimeOfSplit(hourText, rest);
  }

  /** What follows the hour digits in an accepted text. */
  function AfterHourPart(minuteText: string, spaces: string, ap: Meridiem): string {
    (if minuteText == "" then "" else ":" + minuteText) + MeridiemPart(spaces, ap)
  }

  /** The hour group takes the whole leading digit run when no digit follows it. */
  lemma ReadTimeOfSplit(hourText: string, rest: string)
    requires 1 <= |hourText| <= 2 && AllDigits(hourText)
    requires rest == [] || !IsDigit(rest[0])
    ensures ReadTime(hourText + rest) == ReadAfterHour(DigitsValue(hourText), rest)
  {
    var s := hourText + rest;
    DigitRunOfDigits(hourText, rest);
    assert s[..|hourText|] == hourText;
    assert s[|hourText|..] == rest;
  }

  /** After the hour digits: the optional minute group, then the meridiem; no digit comes first. */
  lemma AfterHourText(hourDigits: nat, minuteText: string, spaces: string, ap: Meridiem)
    requires minuteText == "" || (|minuteText| == 2 && AllDigits(minuteText))
    requires AllSpaces(spaces)
    ensures var rest := AfterHourPart(minuteText, spaces, ap);
            rest == [] || !IsDigit(rest[0])
    ensures var hour := TwelveHour(hourDigits, ap);
            var minute := if minuteText == "" then 0 else DigitsValue(minuteText);
            ReadAfterHour(hourDigits, AfterHourPart(minuteText, spaces, ap))
              == if hour <= 23 && minute <= 59 then Some(FormatTime(hour, minute)) else None
  {
    var tail := MeridiemPart(spaces, ap);
    MeridiemOfText(spaces, ap);
    MeridiemPartIsClean(spaces, ap);
    AfterHourNoDigit(minuteText, spaces, ap);
    if minuteText != "" {
      assert AfterHourPart(minuteText, spaces, ap) == ":" + minuteText + tail;
      AfterHourMinutes(hourDigits, minuteText, tail, ap);
    } else {
      assert AfterHourPart(minuteText, spaces, ap) == tail;
      AfterHourNoMinutes(hourDigits, tail, ap);
    }
  }

  /** No digit follows the hour digits in an accepted text. */
  lemma AfterHourNoDigit(minuteText: string, spaces: string, ap: Meridiem)
    requires AllSpaces(spaces)
    ensures var rest := AfterHourPart(minuteText, spaces, ap);
            rest == [] || !IsDigit(rest[0])
  {
    var tail := MeridiemPart(spaces, ap);
    MeridiemPartIsClean(spaces, ap);
    if minuteText != "" {
      assert AfterHourPart(minuteText, spaces, ap)[0] == ':';
    } else {
      assert AfterHourPart(minuteText, spaces, ap) == tail;
    }
  }

  lemma AfterHourNoMinutes(hourDigits: nat, tail: string, ap: Meridiem)
    requires MeridiemOf(tail) == Some(ap) && (tail == [] || tail[0] != ':')
    ensures var hour := TwelveHour(hourDigits, ap);
            ReadAfterHour(hourDigits, tail) == if hour <= 23 then Some(FormatTime(hour, 0)) else None
  {
  }

  lemma AfterHourMinutes(hourDigits: nat, minuteText: string, tail: string, ap: Meridiem)
    requires |minuteText| == 2 && AllDigits(minuteText)
    requires MeridiemOf(tail) == Some(ap)
    ensures var hour := TwelveHour(hourDigits, ap);
            var minute := DigitsValue(minuteText);
            ReadAfterHour(hourDigits, ":" + minuteText + tail)
              == if hour <= 23 && minute <= 59 then Some(FormatTime(hour, minute)) else None
  {
    var rest := ":" + minuteText + tail;
    assert rest[1..3] == minuteText;
    assert rest[3..] == tail;
    assert |rest| >= 3 && rest[0] == ':' && IsDigit(rest[1]) && IsDigit(rest[2]);
  }

  /** White space and then `am` or `pm`, or nothing, reads as that meridiem. */
  lemma MeridiemOfText(spaces: string, ap: Meridiem)
    requires AllSpaces(spaces)
    ensures MeridiemOf(MeridiemPart(spaces, ap)) == Some(ap)
  {
    var t := MeridiemPart(spaces, ap);
    if ap != NoMeridiem {
      var m := MeridiemText(ap);
      assert !IsSpace(m[0]);
      SpaceRunOfSpaces(spaces, m);
      assert t[|spaces|..] == m;
    }
  }

  /**
   * What `parseTimeTo24h` accepts: one or two hour digits, optionally `:`
   * and two minute digits, optionally white space and `am` or `pm`; the
   * result is the hour after the 12-hour rule and the minute, or null when
   * either is out of range.
   */
  lemma ParseTimeText(hourText: string, minuteText: string, spaces: string, ap: Meridiem)
    requires IsTimeParts(hourText, minuteText, spaces)
    ensures var hour := TwelveHour(DigitsValue(hourText), ap);
            var minute := if minuteText == "" then 0 else DigitsValue(minuteText);
            ParseTime(TimeText(hourText, minuteText, spaces, ap))
              == if hour <= 23 && minute <= 59 then Some(FormatTime(hour, minute)) else None
  {
    TimeTextIsClean(hourText, minuteText, spaces, ap);
    ReadTimeText(hourText, minuteText, spaces, ap);
  }

  /**
   * The texts `parseTimeTo24h` gives a time for, once trimmed and
   * lower-cased: an accepted shape whose hour, after the 12-hour rule, is
   * at most 23 and whose minute is at most 59.
   */
  ghost predicate IsTimeForm(s: string) {
    exists hourText, minuteText, spaces, ap ::
      && IsTimeParts(hourText, minuteText, spaces)
      && s == TimeText(hourText, minuteText, spaces, ap)
      && TwelveHour(DigitsValue(hourText), ap) <= 23
      && (minuteText == "" || DigitsValue(minuteText) <= 59)
  }

  /** `parseTimeTo24h` gives a time exactly for the accepted forms in range; anything else (`2:30:00`, `noon`, `123`) gives null. */
  lemma TimeFormsOnly(input: string)
    ensures ParseTime(input).Some? <==> IsTimeForm(Lower(Trim(input)))
  {
    TrimIsTrimmed(input);
    LowerKeepsTrimmed(Trim(input));
    ReadTimeForms(Lower(Trim(input)));
  }

  lemma ReadTimeForms(s: string)
    requires IsTrimmed(s)
    ensures ReadTime(s).Some? <==> IsTimeForm(s)
  {
    if ReadTime(s).Some? {
      var hourText, minuteText, spaces, ap := ReadTimeParts(s);
    }
    if IsTimeForm(s) {
      var hourText, minuteText, spaces, ap :|
        && IsTimeParts(hourText, minuteText, spaces)
        && s == TimeText(hourText, minuteText, spaces, ap)
        && TwelveHour(DigitsValue(hourText), ap) <= 23
        && (minuteText == "" || DigitsValue(minuteText) <= 59);
      ReadTimeText(hourText, minuteText, spaces, ap);
    }
  }

  /** A text the time pattern accepts, with no white space at its end, is a `TimeText` in range. */
  lemma ReadTimeParts(s: string) returns (hourText: string, minuteText: string, spaces: string, ap: Meridiem)
    requires ReadTime(s).Some? && (s == [] || !IsSpace(s[|s| - 1]))
    ensures IsTimeParts(hourText, minuteText, spaces)
    ensures s == TimeText(hourText, minuteText, spaces, ap)
    ensures TwelveHour(DigitsValue(hourText), ap) <= 23 && (minuteText == "" || DigitsValue(minuteText) <= 59)
  {
    var n := DigitRun(s);
    hourText := s[..n];
    var rest := s[n..];
    minuteText, spaces, ap := AfterHourParts(DigitsValue(hourText), rest);
    HourJoin(s, n, minuteText, spaces, ap);
  }

  /** The hour digits joined with what follows them give the text back. */
  lemma HourJoin(s: string, n: nat, minuteText: string, spaces: string, ap: Meridiem)
    requires n <= |s| && s[n..] == AfterHourPart(minuteText, spaces, ap)
    ensures s == TimeText(s[..n], minuteText, spaces, ap)
  {
    assert s == s[..n] + s[n..];
  }

  /** What the pattern accepts after the hour digits is an optional minute group and a `MeridiemPart`. */
  lemma AfterHourParts(hourDigits: nat, rest: string) returns (minuteText: string, spaces: string, ap: Meridiem)
    requires ReadAfterHour(hourDigits, rest).Some?
    requires rest == [] || !IsSpace(rest[|rest| - 1])
    ensures minuteText == "" || (|minuteText| == 2 && AllDigits(minuteText))
    ensures AllSpaces(spaces)
    ensures rest == AfterHourPart(minuteText, spaces, ap)
    ensures TwelveHour(hourDigits, ap) <= 23 && (minuteText == "" || DigitsValue(minuteText) <= 59)
  {
    var hasMinutes := |rest| >= 3 && rest[0] == ':' && IsDigit(rest[1]) && IsDigit(rest[2]);
    var tail := if hasMinutes then rest[3..] else rest;
    ap := MeridiemOf(tail).value;
    if hasMinutes {
      minuteText := rest[1..3];
      assert minuteText[0] == rest[1] && minuteText[1] == rest[2];
    } else {
      minuteText := "";
    }
    spaces := MinuteJoin(rest, hasMinutes, minuteText, tail, ap);
  }

  /** The optional minute group, then the meridiem, give back the text after the hour. */
  lemma MinuteJoin(rest: string, hasMinutes: bool, minuteText: string, tail: string, ap: Meridiem) returns (spaces: string)
    requires hasMinutes ==> |rest| >= 3 && rest[0] == ':' && minuteText == rest[1..3] && tail == rest[3..]
    requires !hasMinutes ==> minuteText == "" && tail == rest
    requires MeridiemOf(tail) == Some(ap) && (rest == [] || !IsSpace(rest[|rest| - 1]))
    ensures AllSpaces(spaces) && rest == AfterHourPart(minuteText, spaces, ap)
  {
    assert tail == [] || tail[|tail| - 1] == rest[|rest| - 1];
    spaces := MeridiemParts(tail);
    if hasMinutes {
      assert rest == ":" + minuteText + tail;
    }
  }

  /** `\s*(am|pm)?` at the end of a text with no trailing white space: nothing, or white space then the meridiem. */
  lemma MeridiemParts(tail: string) returns (spaces: string)
    requires MeridiemOf(tail).Some? && (tail == [] || !IsSpace(tail[|tail| - 1]))
    ensures AllSpaces(spaces) && tail == MeridiemPart(spaces, MeridiemOf(tail).value)
  {
    var k := SpaceRun(tail);
    if k == |tail| {
      assert tail == [];
      spaces := "";
    } else {
      spaces := tail[..k];
      assert tail == spaces + tail[k..];
    }
  }

  /** Any well-formed `HH:mm` text is returned unchanged. */
  lemma ParseTimeKeepsTime(t: string)
    requires IsTime(t)
    ensures ParseTime(t) == Some(t)
  {
    assert TimeText(t[..2], t[3..], "", NoMeridiem) == t;
    ParseTimeText(t[..2], t[3..], "", NoMeridiem);
    TimeIsFormatted(t);
  }

  /** `12am` is midnight. */
  lemma MidnightIsTwelveAm()
    ensures ParseTime("12am") == Some(FormatTime(0, 0))
  {
    assert TimeText("12", "", "", Am) == "12am";
    DigitsValueOfTwo("12");
    ParseTimeText("12", "", "", Am);
  }

  /** `12pm` is noon. */
  lemma NoonIsTwelvePm()
    ensures ParseTime("12pm") == Some(FormatTime(12, 0))
  {
    assert TimeText("12", "", "", Pm) == "12pm";
    DigitsValueOfTwo("12");
    ParseTimeText("12", "", "", Pm);
  }

  /** `Hpm` for H in 1..11 is hour H + 12; `Ham` is hour H. */
  lemma AfternoonHour(hour: nat)
    requires 1 <= hour <= 11
    ensures ParseTime(Decimal(hour) + "pm") == Some(FormatTime(hour + 12, 0))
    ensures ParseTime(Decimal(hour) + "am") == Some(FormatTime(hour, 0))
  {
    assert TimeText(Decimal(hour), "", "", Pm) == Decimal(hour) + "pm";
    assert TimeText(Decimal(hour), "", "", Am) == Decimal(hour) + "am";
    DecimalRoundTrip(hour);
    ParseTimeText(Decimal(hour), "", "", Pm);
    ParseTimeText(Decimal(hour), "", "", Am);
  }

  /** White space may separate the meridiem from the digits: `H pm` is `Hpm`. */
  lemma SpacedMeridiem(hour: nat)
    requires 1 <= hour <= 11
    ensures ParseTime(Decimal(hour) + " pm") == Some(FormatTime(hour + 12, 0))
  {
    assert TimeText(Decimal(hour), "", " ", Pm) == Decimal(hour) + " pm";
    DecimalRoundTrip(hour);
    ParseTimeText(Decimal(hour), "", " ", Pm);
  }

  /** An hour of 13 or more with `pm` leaves the 24-hour range: null. */
  lemma LatePmRejected(hour: nat)
    requires 13 <= hour <= 99
    ensures ParseTime(Decimal(hour) + "pm") == None
  {
    assert TimeText(Decimal(hour), "", "", Pm) == Decimal(hour) + "pm";
    DecimalRoundTrip(hour);
    ParseTimeText(Decimal(hour), "", "", Pm);
  }

  /** Hours above 23 (`25:00`) and minutes above 59 (`2:75pm`) are rejected. */
  lemma OutOfRangeRejected(hourText: string, minuteText: string, spaces: string, ap: Meridiem)
    requires IsTimeParts(hourText, minuteText, spaces) && minuteText != ""
    requires TwelveHour(DigitsValue(hourText), ap) > 23 || DigitsValue(minuteText) > 59
    ensures ParseTime(TimeText(hourText, minuteText, spaces, ap)) == None
  {
    ParseTimeText(hourText, minuteText, spaces, ap);
  }

  /** `compareTime`: `localeCompare`, modelled as plain lexicographic order. */
  function CompareTime(a: string, b: string): (c: int)
    ensures c < 0 <==> Less(a, b)
    ensures c == 0 <==> a == b
    ensures c > 0 <==> Less(b, a)
  {
    LessIsStrictTotal(a, b);
    if Less(a, b) then -1 else if a == b then 0 else 1
  }

  /** String order on two five-character texts that share the middle character. */
  lemma LessOfFive(a: string, b: string)
    requires |a| == 5 && |b| == 5 && a[2] == b[2]
    ensures Less(a, b) <==>
      a[0] < b[0] || (a[0] == b[0] && (a[1] < b[1] || (a[1] == b[1] &&
      (a[3] < b[3] || (a[3] == b[3] && a[4] < b[4])))))
  {
    var p4, p3, p2, p1 := a[4..], a[3..], a[2..], a[1..];
    var q4, q3, q2, q1 := b[4..], b[3..], b[2..], b[1..];
    assert p4[1..] == [] && q4[1..] == [];
    assert Less(p4, q4) <==> a[4] < b[4];
    assert p3[1..] == p4 && q3[1..] == q4;
    assert Less(p3, q3) <==> a[3] < b[3] || (a[3] == b[3] && Less(p4, q4));
    assert p2[1..] == p3 && q2[1..] == q3;
    assert Less(p2, q2) <==> Less(p3, q3);
    assert p1[1..] == p2 && q1[1..] == q2;
    assert Less(p1, q1) <==> a[1] < b[1] || (a[1] == b[1] && Less(p2, q2));
    assert Less(a, b) <==> a[0] < b[0] || (a[0] == b[0] && Less(p1, q1));
  }

  lemma LexOfDigits(x0: int, x1: int, x3: int, x4: int, y0: int, y1: int, y3: int, y4: int)
    requires 0 <= x0 <= 9 && 0 <= x1 <= 9 && 0 <= x3 <= 5 && 0 <= x4 <= 9
    requires 0 <= y0 <= 9 && 0 <= y1 <= 9 && 0 <= y3 <= 5 && 0 <= y4 <= 9
    ensures (x0 < y0 || (x0 == y0 && (x1 < y1 || (x1 == y1 && (x3 < y3 || (x3 == y3 && x4 < y4))))))
            <==> 600 * x0 + 60 * x1 + 10 * x3 + x4 < 600 * y0 + 60 * y1 + 10 * y3 + y4
  {
  }

  /** Digit characters are ordered as their values. */
  lemma DigitOrder(c: char, d: char)
    requires IsDigit(c) && IsDigit(d)
    ensures c < d <==> DigitValue(c) < DigitValue(d)
    ensures c == d <==> DigitValue(c) == DigitValue(d)
  {
  }

  /** The minutes since midnight of a well-formed time, digit by digit. */
  lemma MinutesOfDigits(t: string)
    requires IsTime(t)
    ensures IsDigit(t[0]) && IsDigit(t[1]) && IsDigit(t[3]) && IsDigit(t[4]) && t[2] == ':'
    ensures DigitValue(t[3]) <= 5
    ensures Minutes(t) == 600 * DigitValue(t[0]) + 60 * DigitValue(t[1]) + 10 * DigitValue(t[3]) + DigitValue(t[4])
  {
    assert t[..2][0] == t[0] && t[..2][1] == t[1];
    assert t[3..][0] == t[3] && t[3..][1] == t[4];
    DigitsValueOfTwo(t[..2]);
    DigitsValueOfTwo(t[3..]);
  }

  /** String order on two `DD:DD` texts is the order of their digit values read as hours and minutes. */
  lemma LessByDigits(a: string, b: string)
    requires |a| == 5 && |b| == 5 && a[2] == b[2]
    requires IsDigit(a[0]) && IsDigit(a[1]) && IsDigit(a[3]) && IsDigit(a[4]) && DigitValue(a[3]) <= 5
    requires IsDigit(b[0]) && IsDigit(b[1]) && IsDigit(b[3]) && IsDigit(b[4]) && DigitValue(b[3]) <= 5
    ensures Less(a, b) <==>
              600 * DigitValue(a[0]) + 60 * DigitValue(a[1]) + 10 * DigitValue(a[3]) + DigitValue(a[4])
              < 600 * DigitValue(b[0]) + 60 * DigitValue(b[1]) + 10 * DigitValue(b[3]) + DigitValue(b[4])
  {
    LessOfFive(a, b);
    DigitOrder(a[0], b[0]);
    DigitOrder(a[1], b[1]);
    DigitOrder(a[3], b[3]);
    DigitOrder(a[4], b[4]);
    LexOfDigits(DigitValue(a[0]), DigitValue(a[1]), DigitValue(a[3]), DigitValue(a[4]),
                DigitValue(b[0]), DigitValue(b[1]), DigitValue(b[3]), DigitValue(b[4]));
  }

  /** On well-formed times, string order is the order of the times of day. */
  lemma LessIsEarlier(a: string, b: string)
    requires IsTime(a) && IsTime(b)
    ensures Less(a, b) <==> Minutes(a) < Minutes(b)
    ensures a == b <==> Minutes(a) == Minutes(b)
  {
    MinutesOfDigits(a);
    MinutesOfDigits(b);
    LessByDigits(a, b);
    if Minutes(a) == Minutes(b) {
      ClockUnique(HourOf(a), MinuteOf(a), HourOf(b), MinuteOf(b));
      TimeIsFormatted(a);
      TimeIsFormatted(b);
    }
  }

  /** An hour and a minute below 60 are determined by the minutes since midnight. */
  lemma ClockUnique(h1: nat, m1: nat, h2: nat, m2: nat)
    requires m1 < 60 && m2 < 60 && h1 * 60 + m1 == h2 * 60 + m2
    ensures h1 == h2 && m1 == m2
  {
  }

  /** `addMinutes` (and `getEndTime`): the time `minutes` later, wrapping modulo 24 hours. */
  function AddMinutes(t: string, minutes: nat): (r: string)
    requires IsTime(t)
    ensures IsTime(r)
    ensures Minutes(r) == (Minutes(t) + minutes) % 1440
  {
    var total := HourOf(t) * 60 + MinuteOf(t) + minutes;
    var hour := (total / 60) % 24;
    var minute := total % 60;
    FormatTimeIsTime(hour, minute);
    WrapDay(total);
    FormatTime(hour, minute)
  }

  lemma WrapDay(total: nat)
    ensures ((total / 60) % 24) * 60 + total % 60 == total % 1440
  {
    var q := total / 60;
    assert total == 60 * q + total % 60;
    assert q == 24 * (q / 24) + q % 24;
    assert total == 1440 * (q / 24) + (60 * (q % 24) + total % 60);
  }

  function EndTime(start: string, durationMinutes: nat): (r: string)
    requires IsTime(start)
    ensures IsTime(r)
    ensures Minutes(r) == (Minutes(start) + durationMinutes) % 1440
  {
    AddMinutes(start, durationMinutes)
  }

  /** Adding minutes to a formatted time, in terms of its hour and minute. */
  lemma AddMinutesToFormatted(hour: nat, minute: nat, minutes: nat)
    requires hour <= 23 && minute <= 59
    ensures IsTime(FormatTime(hour, minute))
    ensures var total := hour * 60 + minute + minutes;
            AddMinutes(FormatTime(hour, minute), minutes) == FormatTime((total / 60) % 24, total % 60)
  {
    FormatTimeIsTime(hour, minute);
  }

  /** An hour later is the next hour at the same minute, before midnight (17:30 plus 60 minutes is 18:30). */
  lemma AddHour(hour: nat, minute: nat)
    requires hour <= 22 && minute <= 59
    ensures IsTime(FormatTime(hour, minute)) && AddMinutes(FormatTime(hour, minute), 60) == FormatTime(hour + 1, minute)
  {
    AddMinutesToFormatted(hour, minute, 60);
    HourLater(hour, minute);
  }

  lemma HourLater(hour: nat, minute: nat)
    requires hour <= 22 && minute <= 59
    ensures var total := hour * 60 + minute + 60;
            (total / 60) % 24 == hour + 1 && total % 60 == minute
  {
    var total := hour * 60 + minute + 60;
    assert total == (hour + 1) * 60 + minute;
  }

  /** A slot that stays within the day ends `durationMinutes` after it starts, and not before it. */
  lemma EndTimeWithinDay(start: string, durationMinutes: nat)
    requires IsTime(start) && Minutes(start) + durationMinutes < 1440
    ensures Minutes(EndTime(start, durationMinutes)) == Minutes(start) + durationMinutes
    ensures !Less(EndTime(start, durationMinutes), start)
  {
    assert (Minutes(start) + durationMinutes) % 1440 == Minutes(start) + durationMinutes;
    LessIsEarlier(EndTime(start, durationMinutes), start);
  }

  /** A slot that runs past midnight wraps: its end time is earlier than its start. */
  lemma EndTimeWrapsPastMidnight(start: string, durationMinutes: nat)
    requires IsTime(start) && durationMinutes < 1440 && Minutes(start) + durationMinutes >= 1440
    ensures Minutes(EndTime(start, durationMinutes)) == Minutes(start) + durationMinutes - 1440
    ensures Less(EndTime(start, durationMinutes), start)
  {
    NextDayResidue(Minutes(start) + durationMinutes);
    LessIsEarlier(EndTime(start, durationMinutes), start);
  }

  lemma NextDayResidue(total: int)
    requires 1440 <= total < 2880
    ensures total % 1440 == total - 1440
  {
    assert total == 1440 * 1 + (total - 1440);
  }
}
