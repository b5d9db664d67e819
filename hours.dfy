/**
 * `isWithinWorkingHours`: a slot is bookable when its date falls on a day
 * the studio opens and it starts no earlier than the opening time and ends
 * no later than the closing time, both compared as `HH:mm` text.
 */
module Hours {
  import opened Options
  import opened Text
  import opened Times
  import opened Calendar
  import opened Config

  /** The weekday of `dateISO` is an open day; an invalid date (weekday `NaN`) never is. */
  predicate OpenOn(dateISO: string) {
    var w := Weekday(dateISO);
    w.Some? && w.value in DaysOpen
  }

  /** `isWithinWorkingHours(dateISO, start, end)`. */
  function IsWithinWorkingHours(dateISO: string, start: string, end: string): (ok: bool)
    ensures ok ==> OpenOn(dateISO)
    ensures ok ==> LessEq(Open, start) && LessEq(end, Close)
    ensures OpenOn(dateISO) && LessEq(Open, start) && LessEq(end, Close) ==> ok
  {
    if !OpenOn(dateISO) then false
    else if CompareTime(start, Open) < 0 then false
    else if CompareTime(end, Close) > 0 then false
    else true
  }

  /** The configured opening and closing times are well-formed: 10:00 is minute 600, 18:00 minute 1080. */
  lemma OpeningTimes()
    ensures IsTime(Open) && Minutes(Open) == 600
    ensures IsTime(Close) && Minutes(Close) == 1080
  {
    assert Open[..2] == "10" && Open[3..] == "00";
    assert Close[..2] == "18" && Close[3..] == "00";
    DigitsValueOfTwo("10");
    DigitsValueOfTwo("00");
    DigitsValueOfTwo("18");
  }

  /** Every day of the week but Monday is open. */
  lemma OpenExceptMonday(w: nat)
    requires w < 7
    ensures w in DaysOpen <==> w != 1
  {
    assert DaysOpen[0] == 2 && DaysOpen[1] == 3 && DaysOpen[2] == 4;
    assert DaysOpen[3] == 5 && DaysOpen[4] == 6 && DaysOpen[5] == 0;
  }

  /** On well-formed times the check is arithmetic: start at or after minute 600, end at or before minute 1080. */
  lemma WithinHoursByMinutes(dateISO: string, start: string, end: string)
    requires IsTime(start) && IsTime(end)
    ensures IsWithinWorkingHours(dateISO, start, end)
        <==> OpenOn(dateISO) && 600 <= Minutes(start) && Minutes(end) <= 1080
  {
    OpeningTimes();
    LessIsEarlier(start, Open);
    LessIsEarlier(end, Close);
  }

  /** A slot that ends the same day is accepted exactly when it lies inside 10:00..18:00 on an open day. */
  lemma SlotWithinHours(dateISO: string, start: string, durationMinutes: nat)
    requires IsTime(start) && Minutes(start) + durationMinutes < 1440
    ensures IsWithinWorkingHours(dateISO, start, EndTime(start, durationMinutes))
        <==> OpenOn(dateISO) && 600 <= Minutes(start) && Minutes(start) + durationMinutes <= 1080
  {
    WithinHoursByMinutes(dateISO, start, EndTime(start, durationMinutes));
    EndTimeWithinDay(start, durationMinutes);
  }

  /**
   * The end time is compared as text only, so a slot that runs past midnight
   * passes: its end, read on the clock, is early in the morning.
   */
  lemma SlotPastMidnightAccepted(dateISO: string, start: string, durationMinutes: nat)
    requires OpenOn(dateISO) && IsTime(start) && 600 <= Minutes(start)
    requires durationMinutes < 1440 && Minutes(start) + durationMinutes >= 1440
    requires Minutes(start) + durationMinutes - 1440 <= 1080
    ensures IsWithinWorkingHours(dateISO, start, EndTime(start, durationMinutes))
    ensures Less(EndTime(start, durationMinutes), start)
  {
    WithinHoursByMinutes(dateISO, start, EndTime(start, durationMinutes));
    EndTimeWrapsPastMidnight(start, durationMinutes);
  }

  /** No slot is accepted on a Monday. */
  lemma MondayClosed(year: nat, month: nat, day: nat, start: string, end: string)
    requires 1000 <= year <= 9999 && 1 <= month <= 12 && 1 <= day <= 31
    requires Sakamoto(year, month, day) == 1
    ensures !IsWithinWorkingHours(DateText(year, month, day), start, end)
  {
    WeekdayOfDateText(year, month, day);
    OpenExceptMonday(1);
  }

  /** On a day other than Monday the date does not stand in the way. */
  lemma OtherDaysOpen(year: nat, month: nat, day: nat)
    requires 1000 <= year <= 9999 && 1 <= month <= 12 && 1 <= day <= 31
    requires Sakamoto(year, month, day) != 1
    ensures OpenOn(DateText(year, month, day))
  {
    WeekdayOfDateText(year, month, day);
    OpenExceptMonday(Sakamoto(year, month, day));
  }

  /** A date that is not a 4-2-2 digit text is never within working hours. */
  lemma MalformedDateClosed(dateISO: string, start: string, end: string)
    requires !IsIsoShape(dateISO)
    ensures !IsWithinWorkingHours(dateISO, start, end)
  {
  }
}
