/** Instants, as microseconds since the first of January of year 1 in UTC, and the time stamps that name them
    in the calendar of `datetime`. */
module Calendar {
  import opened Common
  import opened CursorText

  function YearDays(year: nat): nat {
    if Leap(year) then 366 else 365
  }

  /** Days before the year, and before the month within it. */
  function DaysBeforeYear(year: nat): nat {
    if year <= 1 then 0 else DaysBeforeYear(year - 1) + YearDays(year - 1)
  }

  function DaysBeforeMonth(year: nat, month: nat): nat {
    if month <= 1 then 0 else DaysBeforeMonth(year, month - 1) + DaysIn(year, month - 1)
  }

  function DayNumber(year: nat, month: nat, day: nat): int {
    DaysBeforeYear(year) + DaysBeforeMonth(year, month) + day - 1
  }

  /** The instant an aware stamp denotes. */
  function Instant(t: Stamp): int
    requires t.offset.Some?
  {
    DayNumber(t.year, t.month, t.day) * DAY + Micros(t.hour, t.minute, t.second, t.micro) - t.offset.value
  }

  datatype Found = Found(index: nat, left: nat)

  /** The year, from `year` on, that holds the day `n` days after its start. */
  function FindYear(n: nat, year: nat): Found {
    if n < YearDays(year) then Found(year, n) else FindYear(n - YearDays(year), year + 1)
  }

  function FindMonth(n: nat, year: nat, month: nat): Found
    decreases 12 - month
  {
    if month >= 12 || n < DaysIn(year, month) then Found(month, n)
    else FindMonth(n - DaysIn(year, month), year, month + 1)
  }

  /** The stamp in UTC. */
  function StampOf(at: nat): Stamp {
    var year := FindYear(at / DAY, 1);
    var month := FindMonth(year.left, year.index, 1);
    var micros := at % DAY;
    var seconds := micros / 1_000_000;
    Stamp(year.index, month.index, month.left + 1, seconds / 3600, seconds / 60 % 60, seconds % 60,
          micros % 1_000_000, Some(0))
  }

  /** Years the calendar can write. */
  predicate InCalendar(at: int) {
    at >= 0 && StampOf(at).year <= 9999
  }

  lemma {:induction false} FindYearFinds(n: nat, year: nat)
    requires year >= 1
    ensures var f := FindYear(n, year);
            f.index >= year && f.left < YearDays(f.index)
            && DaysBeforeYear(f.index) + f.left == DaysBeforeYear(year) + n
    decreases n
  {
    if n >= YearDays(year) {
      FindYearFinds(n - YearDays(year), year + 1);
    }
  }

  lemma TwelveMonths(year: nat)
    ensures DaysBeforeMonth(year, 12) + 31 == YearDays(year)
  {
    assert DaysBeforeMonth(year, 2) == 31;
    assert DaysBeforeMonth(year, 4) == DaysBeforeMonth(year, 3) + 31 == DaysBeforeMonth(year, 2) + DaysIn(year, 2) + 31;
    assert DaysBeforeMonth(year, 6) == DaysBeforeMonth(year, 5) + 31 == DaysBeforeMonth(year, 4) + 61;
    assert DaysBeforeMonth(year, 8) == DaysBeforeMonth(year, 7) + 31 == DaysBeforeMonth(year, 6) + 61;
    assert DaysBeforeMonth(year, 10) == DaysBeforeMonth(year, 9) + 30 == DaysBeforeMonth(year, 8) + 61;
    assert DaysBeforeMonth(year, 12) == DaysBeforeMonth(year, 11) + 30 == DaysBeforeMonth(year, 10) + 61;
  }

  lemma {:induction false} FindMonthFinds(n: nat, year: nat, month: nat)
    requires 1 <= month <= 12 && DaysBeforeMonth(year, month) + n < YearDays(year)
    ensures var f := FindMonth(n, year, month);
            && month <= f.index <= 12 && f.left < DaysIn(year, f.index)
            && DaysBeforeMonth(year, f.index) + f.left == DaysBeforeMonth(year, month) + n
    decreases 12 - month
  {
    if month == 12 {
      TwelveMonths(year);
    } else if n >= DaysIn(year, month) {
      FindMonthFinds(n - DaysIn(year, month), year, month + 1);
    }
  }

  lemma DateIsFound(days: nat)
    ensures var year := FindYear(days, 1);
            var month := FindMonth(year.left, year.index, 1);
            && year.index >= 1 && 1 <= month.index <= 12 && month.left + 1 <= DaysIn(year.index, month.index)
            && DayNumber(year.index, month.index, month.left + 1) == days
  {
    FindYearFinds(days, 1);
    var year := FindYear(days, 1);
    assert DaysBeforeMonth(year.index, 1) == 0;
    FindMonthFinds(year.left, year.index, 1);
  }

  /** Every instant the calendar can write has a valid stamp, and that stamp denotes it. */
  lemma StampDenotesInstant(at: int)
    requires InCalendar(at)
    ensures ValidStamp(StampOf(at)) && Instant(StampOf(at)) == at
  {
    DateIsFound(at / DAY);
    MicrosSplit(at % DAY);
  }
}
