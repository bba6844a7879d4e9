/** The two calendar implementations behind financial history: stepping back quarter ends and years from a reported
    period end, and shifting a date by months. A date that would leave the supported years raises: `None`. */
module FinancialCalendar {
  import opened Common

  const MIN_YEAR := 1
  const MAX_YEAR := 9999

  datatype Date = Date(year: int, month: int, day: int)

  predicate Leap(year: int) { year % 4 == 0 && (year % 100 != 0 || year % 400 == 0) }

  function DaysIn(year: int, month: int): int {
    if month == 2 then (if Leap(year) then 29 else 28) else if month in {4, 6, 9, 11} then 30 else 31
  }

  predicate Valid(d: Date) {
    MIN_YEAR <= d.year <= MAX_YEAR && 1 <= d.month <= 12 && 1 <= d.day <= DaysIn(d.year, d.month)
  }

  predicate Before(a: Date, b: Date) {
    a.year < b.year || (a.year == b.year && (a.month < b.month || (a.month == b.month && a.day < b.day)))
  }

  /** Dates come in the order in which a calendar of 31-day months would count them. */
  lemma BeforeMeans(a: Date, b: Date)
    requires Valid(a) && Valid(b)
    ensures Before(a, b) <==> 372 * a.year + 31 * a.month + a.day < 372 * b.year + 31 * b.month + b.day
  {
  }

  predicate MonthEnd(d: Date) { d.day == DaysIn(d.year, d.month) }

  /** The last day of the date's month. */
  function EndOf(d: Date): Date { d.(day := DaysIn(d.year, d.month)) }

  /** `date(...)` */
  function Constructed(d: Date): Option<Date> { if Valid(d) then Some(d) else None }

  // ---------------------------------------------------------------- shifting by months

  /** `shift_months` */
  function ShiftMonths(end: Date, months: int): Option<Date> {
    var count := end.year * 12 + end.month - 1 + months;
    var year, month := count / 12, count % 12 + 1;
    var last := DaysIn(year, month);
    Constructed(Date(year, month, if MonthEnd(end) then last else Min(end.day, last)))
  }

  lemma YearAndMonth(year: int, month: int)
    requires 0 <= month < 12
    ensures (year * 12 + month) / 12 == year && (year * 12 + month) % 12 == month
  {
  }

  /** On month ends, shifting stays on month ends and composes. */
  lemma ShiftsCompose(d: Date, a: int, b: int)
    requires Valid(d) && MonthEnd(d) && ShiftMonths(d, a).Some?
    ensures MonthEnd(ShiftMonths(d, a).value)
    ensures ShiftMonths(ShiftMonths(d, a).value, b) == ShiftMonths(d, a + b)
  {
    var e := ShiftMonths(d, a).value;
    assert e.year * 12 + e.month - 1 == d.year * 12 + d.month - 1 + a;
  }

  /** On month ends, shifting back undoes shifting. */
  lemma ShiftsInvert(d: Date, a: int)
    requires Valid(d) && MonthEnd(d) && ShiftMonths(d, a).Some?
    ensures ShiftMonths(ShiftMonths(d, a).value, -a) == Some(d)
  {
    ShiftsCompose(d, a, -a);
    assert ShiftMonths(d, 0) == Some(d);
  }

  /** The length of the month a shift leads to. */
  function TargetLength(d: Date, months: int): int {
    var count := d.year * 12 + d.month - 1 + months;
    DaysIn(count / 12, count % 12 + 1)
  }

  /** In general it does exactly when the date is a month end or the month it goes to is longer than its day. */
  lemma WhenShiftsInvert(d: Date, a: int)
    requires Valid(d) && ShiftMonths(d, a).Some?
    ensures ShiftMonths(ShiftMonths(d, a).value, -a) == Some(d) <==> MonthEnd(d) || d.day < TargetLength(d, a)
  {
    var e := ShiftMonths(d, a).value;
    assert e.year * 12 + e.month - 1 == d.year * 12 + d.month - 1 + a;
    if MonthEnd(d) { ShiftsInvert(d, a); }
  }

  /** Such a date: 30 January goes to the end of February and comes back on the 31st. */
  lemma JanuaryComesBackLater()
    ensures ShiftMonths(Date(2023, 1, 30), 1) == Some(Date(2023, 2, 28))
    ensures ShiftMonths(Date(2023, 2, 28), -1) == Some(Date(2023, 1, 31))
  {
    YearAndMonth(2023, 1);
    YearAndMonth(2023, 0);
  }

  lemma ShiftingBackIsEarlier(d: Date, a: int, b: int)
    requires Valid(d) && a < b && ShiftMonths(d, a).Some? && ShiftMonths(d, b).Some?
    ensures Before(ShiftMonths(d, a).value, ShiftMonths(d, b).value)
  {
    var m := d.year * 12 + d.month - 1;
    assert (m + a) / 12 < (m + b) / 12 || ((m + a) / 12 == (m + b) / 12 && (m + a) % 12 < (m + b) % 12);
  }

  /** The calendar is the Gregorian one: every fourth year has a leap day, but of the centuries only every fourth, and
      the months are as long as in every year. */
  lemma GregorianYears(year: int)
    ensures year % 400 == 0 ==> DaysIn(year, 2) == 29
    ensures year % 400 in {100, 200, 300} ==> DaysIn(year, 2) == 28
    ensures year % 4 == 0 && year % 100 != 0 ==> DaysIn(year, 2) == 29
    ensures year % 4 != 0 ==> DaysIn(year, 2) == 28
    ensures forall month | 1 <= month <= 7 && month != 2 :: DaysIn(year, month) == 30 + month % 2
    ensures forall month | 8 <= month <= 12 :: DaysIn(year, month) == 31 - month % 2
  {
  }

  /** The days before a year since the calendar began, as its definition counts them. */
  function DaysBeforeYear(year: int): int { 365 * (year - 1) + (year - 1) / 4 - (year - 1) / 100 + (year - 1) / 400 }

  function DaysOfYear(year: int): int {
    DaysIn(year, 1) + DaysIn(year, 2) + DaysIn(year, 3) + DaysIn(year, 4) + DaysIn(year, 5) + DaysIn(year, 6)
    + DaysIn(year, 7) + DaysIn(year, 8) + DaysIn(year, 9) + DaysIn(year, 10) + DaysIn(year, 11) + DaysIn(year, 12)
  }

  /** The month lengths add up to the years of that count. */
  lemma YearsAddUp(year: int)
    ensures DaysBeforeYear(year) + DaysOfYear(year) == DaysBeforeYear(year + 1)
  {
    NextMultiple(year);
    assert DaysOfYear(year) == 365 + (if Leap(year) then 1 else 0);
  }

  lemma NextMultiple(y: int)
    ensures y / 4 == (y - 1) / 4 + (if y % 4 == 0 then 1 else 0)
    ensures y / 100 == (y - 1) / 100 + (if y % 100 == 0 then 1 else 0)
    ensures y / 400 == (y - 1) / 400 + (if y % 400 == 0 then 1 else 0)
  {
  }

  /** Where a shift leads: so many months on, in the years 1 to 9999 or nowhere; to the last day from a last day, and
      otherwise to the same day, or the last one of a shorter month. */
  lemma ShiftMeans(d: Date, months: int)
    requires Valid(d)
    ensures ShiftMonths(d, months).Some? <==> 13 <= 12 * d.year + d.month + months <= 120000
    ensures ShiftMonths(d, months).Some? ==>
      var e := ShiftMonths(d, months).value;
      && 12 * e.year + e.month == 12 * d.year + d.month + months && 1 <= e.month <= 12
      && (MonthEnd(d) ==> MonthEnd(e))
      && (!MonthEnd(d) && d.day <= DaysIn(e.year, e.month) ==> e.day == d.day)
      && (!MonthEnd(d) && d.day > DaysIn(e.year, e.month) ==> MonthEnd(e))
  {
  }

  // ---------------------------------------------------------------- quarter ends

  const QUARTERLY_MIN_PERIODS := 4

  /** One step of `_quarter_starts_from`. */
  function QuarterBack(end: Date, offset: nat): Option<Date> {
    var back := offset * 3;
    var year := if end.month <= back then end.year - 1 else end.year;
    var raw := if end.month <= back then end.month + 12 - back else end.month - back;
    var month := (raw - 1) % 12 + 1;
    Constructed(Date(year, month, DaysIn(year, month)))
  }

  /** The quarter ends of an anchor are the month shifts of the end of its month. */
  lemma QuarterBackIsAShift(end: Date, offset: nat)
    requires Valid(end) && offset < QUARTERLY_MIN_PERIODS
    ensures QuarterBack(end, offset) == ShiftMonths(EndOf(end), -3 * offset)
  {
    var back := 3 * offset;
    if end.month <= back {
      YearAndMonth(end.year - 1, end.month + 11 - back);
    } else {
      YearAndMonth(end.year, end.month - 1 - back);
    }
  }

  function QuarterEnds(end: Date): Option<seq<Date>> {
    if exists k | 0 <= k < QUARTERLY_MIN_PERIODS :: QuarterBack(end, k).None? then None
    else Some(seq(QUARTERLY_MIN_PERIODS, k requires 0 <= k < QUARTERLY_MIN_PERIODS && QuarterBack(end, k).Some? =>
                    QuarterBack(end, k).value))
  }

  /** `_quarter_starts_from` */
  method QuarterStartsFrom(end: Date) returns (ends: Option<seq<Date>>)
    ensures ends == QuarterEnds(end)
  {
    var found: seq<Date> := [];
    for offset := 0 to QUARTERLY_MIN_PERIODS
      invariant |found| == offset
      invariant forall k | 0 <= k < offset :: QuarterBack(end, k) == Some(found[k])
    {
      var months := offset * 3;
      var year, month;
      if end.month <= months {
        year, month := end.year - 1, end.month + 12 - months;
      } else {
        year, month := end.year, end.month - months;
      }
      month := (month - 1) % 12 + 1;
      var quarter := Constructed(Date(year, month, DaysIn(year, month)));
      if quarter.None? {
        assert QuarterBack(end, offset).None?;
        return None;
      }
      found := found + [quarter.value];
    }
    assert found == QuarterEnds(end).value;
    return Some(found);
  }

  /** Stepping back raises exactly for anchors in the first year's first nine months. */
  lemma QuarterEndsRaise(end: Date)
    requires Valid(end)
    ensures QuarterEnds(end).None? <==> end.year == MIN_YEAR && end.month <= 9
  {
    assert QuarterBack(end, 3).None? <==> end.year == MIN_YEAR && end.month <= 9;
    forall k: nat | k < 4 && QuarterBack(end, 3).Some? ensures QuarterBack(end, k).Some? { }
  }

  /** There are four of them: the end of the anchor's month and the ends of the months three, six and nine before. */
  lemma QuarterEndsAre(end: Date)
    requires Valid(end) && QuarterEnds(end).Some?
    ensures var ends := QuarterEnds(end).value;
      && |ends| == 4
      && forall k | 0 <= k < 4 ::
        Valid(ends[k]) && MonthEnd(ends[k]) && 12 * ends[k].year + ends[k].month == 12 * end.year + end.month - 3 * k
  {
    var ends := QuarterEnds(end).value;
    forall k | 0 <= k < 4
      ensures Valid(ends[k]) && MonthEnd(ends[k])
        && 12 * ends[k].year + ends[k].month == 12 * end.year + end.month - 3 * k
    {
      QuarterBackIsAShift(end, k);
      ShiftMeans(EndOf(end), -3 * k);
    }
  }

  /** The four quarter ends strictly decrease. */
  lemma QuarterEndsDecrease(end: Date, i: nat, j: nat)
    requires Valid(end) && QuarterEnds(end).Some? && i < j < QUARTERLY_MIN_PERIODS
    ensures Before(QuarterEnds(end).value[j], QuarterEnds(end).value[i])
  {
    QuarterBackIsAShift(end, i);
    QuarterBackIsAShift(end, j);
    ShiftingBackIsEarlier(EndOf(end), -3 * j, -3 * i);
  }

  ghost predicate ShiftGivesQuarter(end: Date, i: nat) { QuarterBack(end, i) == ShiftMonths(end, -3 * i) }

  /** The quarter ends are the month shifts of the anchor itself exactly when the anchor is a month end. */
  lemma QuarterCalendarsAgree(end: Date)
    requires Valid(end)
    ensures MonthEnd(end) <==> forall i: nat | i < QUARTERLY_MIN_PERIODS :: ShiftGivesQuarter(end, i)
  {
    if MonthEnd(end) {
      forall i: nat | i < QUARTERLY_MIN_PERIODS ensures ShiftGivesQuarter(end, i) { QuarterBackIsAShift(end, i); }
    } else {
      QuarterBackIsAShift(end, 0);
      assert !ShiftGivesQuarter(end, 0);
    }
  }

  /** Anchoring again on a quarter end gives the same calendar: the ends of the first of them are all four. */
  lemma QuarterEndsAreStable(end: Date)
    requires Valid(end) && QuarterEnds(end).Some?
    ensures Valid(EndOf(end)) && QuarterEnds(end).value[0] == EndOf(end)
    ensures QuarterEnds(EndOf(end)) == QuarterEnds(end)
  {
    QuarterBackIsAShift(end, 0);
    forall k: nat | k < 4 ensures QuarterBack(end, k) == QuarterBack(EndOf(end), k) { }
    assert QuarterEnds(EndOf(end)).Some?;
    assert QuarterEnds(EndOf(end)).value == QuarterEnds(end).value;
  }

  // ---------------------------------------------------------------- years back

  const ANNUAL_MIN_PERIODS := 3

  /** `latest.replace(year=...)`, with the leap-day fallback to the 28th. */
  function YearBack(latest: Date, offset: nat): Option<Date> {
    var same := Constructed(latest.(year := latest.year - offset));
    if same.Some? then same else Constructed(latest.(year := latest.year - offset, day := 28))
  }

  predicate LeapDay(d: Date) { d.month == 2 && d.day == 29 }

  /** Stepping a year back keeps month and day except from 29 February, which never meets another leap day within
      the window; it raises exactly when the year runs out. */
  lemma YearsBack(latest: Date, offset: nat)
    requires Valid(latest) && offset < ANNUAL_MIN_PERIODS
    ensures YearBack(latest, offset).None? <==> latest.year - offset < MIN_YEAR
    ensures YearBack(latest, offset).Some? ==>
      var d := YearBack(latest, offset).value;
      && d.year == latest.year - offset && d.month == latest.month
      && (d.day == latest.day <==> offset == 0 || !LeapDay(latest))
      && (offset > 0 && LeapDay(latest) ==> d.day == 28)
  {
  }

  ghost predicate ShiftGivesYear(latest: Date, k: nat) { YearBack(latest, k) == ShiftMonths(latest, -12 * k) }

  lemma TwelveMonths(latest: Date, k: nat)
    requires Valid(latest) && k <= 2 && latest.year - k >= MIN_YEAR
    ensures ShiftGivesYear(latest, k) <==>
      !(k > 0 && latest.month == 2 && latest.day == 28 && !Leap(latest.year) && Leap(latest.year - k))
  {
    YearAndMonth(latest.year - k, latest.month - 1);
  }

  /** The other calendar shifts by twelve months. The two agree on the whole window except for 28 February of a common
      year that has a leap year one or two years back: there the shift moves to the leap day and the other does not. */
  lemma AnnualCalendarsAgree(latest: Date)
    requires Valid(latest) && latest.year - 2 >= MIN_YEAR
    ensures ShiftGivesYear(latest, 0) && ShiftGivesYear(latest, 1) && ShiftGivesYear(latest, 2) <==>
      !(latest.month == 2 && latest.day == 28 && !Leap(latest.year) && (Leap(latest.year - 1) || Leap(latest.year - 2)))
  {
    TwelveMonths(latest, 0);
    TwelveMonths(latest, 1);
    TwelveMonths(latest, 2);
  }

  /** Such an anchor: a year before 28 February 2025 is 28 February 2024, twelve months before it is 29 February
      2024. */
  lemma TheCalendarsCanDiffer()
    ensures YearBack(Date(2025, 2, 28), 1) == Some(Date(2024, 2, 28))
    ensures ShiftMonths(Date(2025, 2, 28), -12) == Some(Date(2024, 2, 29))
  {
    YearAndMonth(2024, 1);
  }
}
