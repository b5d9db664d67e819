/**
 * Calendar dates as text and the weekday the engine asks of them.
 *
 * The source reads the weekday with `new Date(`${dateISO}T00:00:00`).getDay()`.
 * The model takes the date-only form `YYYY-MM-DD` with month 1..12 and day
 * 1..31 (a day past the end of a short month rolls into the next month, as
 * the V8 engine does, which the linear formula below reproduces) and gives
 * its weekday by Sakamoto's formula; any other text is an invalid date,
 * whose weekday is `NaN`, which no list of open days contains.
 */
module Calendar {
  import opened Options
  import opened Text

  /** `/^\d{4}-\d{2}-\d{2}$/`. */
  predicate IsIsoShape(s: string) {
    && |s| == 10
    && AllDigits(s[..4]) && s[4] == '-' && AllDigits(s[5..7]) && s[7] == '-' && AllDigits(s[8..])
  }

  /** `${year}-${toTwo(month)}-${toTwo(day)}`: how the engine writes a date it builds. */
  function DateText(year: nat, month: nat, day: nat): string {
    Decimal(year) + "-" + ToTwo(month) + "-" + ToTwo(day)
  }

  /** Sakamoto's term for the year and month: leap days so far plus the month's offset. */
  function MonthBase(year: int, month: nat): int
    requires 1 <= month <= 12
  {
    var offsets := [0, 3, 2, 5, 0, 3, 5, 1, 4, 6, 2, 4];
    var y := if month < 3 then year - 1 else year;
    y + y / 4 - y / 100 + y / 400 + offsets[month - 1]
  }

  /** Weekday (0 = Sunday) of a proleptic Gregorian date, by Sakamoto's method. */
  function Sakamoto(year: int, month: nat, day: nat): (w: nat)
    requires 1 <= month <= 12
    ensures w < 7
  {
    (MonthBase(year, month) + day) % 7
  }

  /** `getDay()` of the date at local midnight, or None for an invalid date. */
  function Weekday(dateISO: string): (w: Option<nat>)
    ensures w.Some? ==> IsIsoShape(dateISO) && w.value < 7
  {
    if !IsIsoShape(dateISO) then None
    else
      var month := DigitsValue(dateISO[5..7]);
      var day := DigitsValue(dateISO[8..]);
      if 1 <= month <= 12 && 1 <= day <= 31
      then Some(Sakamoto(DigitsValue(dateISO[..4]), month, day))
      else None
  }

  /** A four-digit year with in-range month and day, written as the engine writes it. */
  lemma {:induction false} DateTextIsIso(year: nat, month: nat, day: nat)
    requires 1000 <= year <= 9999 && month < 100 && day < 100
    ensures IsIsoShape(DateText(year, month, day))
    ensures var s := DateText(year, month, day);
            DigitsValue(s[..4]) == year && DigitsValue(s[5..7]) == month && DigitsValue(s[8..]) == day
  {
    DecimalRoundTrip(year);
    DecimalRoundTrip(year / 10);
    DecimalRoundTrip(year / 100);
    assert |Decimal(year)| == 4;
    ToTwoReadsBack(month);
    ToTwoReadsBack(day);
    var s := DateText(year, month, day);
    assert s[..4] == Decimal(year);
    assert s[5..7] == ToTwo(month);
    assert s[8..] == ToTwo(day);
  }

  /** The weekday of a well-formed date is Sakamoto's weekday of its year, month and day. */
  lemma WeekdayOfDateText(year: nat, month: nat, day: nat)
    requires 1000 <= year <= 9999 && 1 <= month <= 12 && 1 <= day <= 31
    ensures Weekday(DateText(year, month, day)) == Some(Sakamoto(year, month, day))
  {
    DateTextIsIso(year, month, day);
  }

  /** Within a month the weekday advances by one each day. */
  lemma SakamotoNextDay(year: nat, month: nat, day: nat)
    requires 1 <= month <= 12
    ensures Sakamoto(year, month, day + 1) == (Sakamoto(year, month, day) + 1) % 7
  {
    NextResidue(MonthBase(year, month) + day);
  }

  lemma NextResidue(x: int)
    ensures (x + 1) % 7 == (x % 7 + 1) % 7
  {
    var q := x / 7;
    assert x == 7 * q + x % 7;
    if x % 7 == 6 {
      assert x + 1 == 7 * (q + 1);
    } else {
      assert x + 1 == 7 * q + (x % 7 + 1);
    }
  }

  /** 1 December 2025 is a Monday and 2 December 2025 a Tuesday. */
  lemma DecemberFirstIsMonday()
    ensures Sakamoto(2025, 12, 1) == 1 && Sakamoto(2025, 12, 2) == 2
  {
    assert MonthBase(2025, 12) == 2025 + 506 - 20 + 5 + 4;
  }
}
