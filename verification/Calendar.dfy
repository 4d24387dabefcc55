/** Weeks and years of the archive schedule.  A day is its proleptic ordinal: day 1, the first of
    January of year 1, is a Monday. */
module Calendar {

  /** Monday is 0. */
  function Weekday(day: int): nat { (day + 6) % 7 }

  predicate Monday(day: int) { Weekday(day) == 0 }

  function ThisMonday(today: int): int { today - Weekday(today) }

  function PriorMonday(today: int): int { ThisMonday(today) - 7 }

  /** The prior Monday is a Monday 7 to 13 days back, and the only one. */
  lemma PriorMondayIs(today: int, m: int)
    ensures m == PriorMonday(today) <==> (Monday(m) && 7 <= today - m <= 13)
  {
  }

  /** Local midnight as a timestamp, on a clock that need not have equal days but never runs back. */
  ghost predicate Clock(midnight: int -> int) {
    forall a, b :: a <= b ==> midnight(a) <= midnight(b)
  }

  /** The half-open week that starts on a day. */
  predicate InWeek(midnight: int -> int, monday: int, t: int) {
    midnight(monday) <= t < midnight(monday + 7)
  }

  /** Two different Mondays' windows never share an instant. */
  lemma WeeksDisjoint(midnight: int -> int, a: int, b: int, t: int)
    requires Clock(midnight) && Monday(a) && Monday(b) && InWeek(midnight, a, t) && InWeek(midnight, b, t)
    ensures a == b
  {
  }

  /** Over a run of k consecutive Mondays, every instant between the first and the end of the last
      week is in exactly one week's window. */
  lemma {:induction false} WeeksTile(midnight: int -> int, first: int, k: nat, t: int)
    requires Clock(midnight) && Monday(first)
    ensures midnight(first) <= t < midnight(first + 7 * k)
       <==> exists i :: 0 <= i < k && InWeek(midnight, Week(first, i), t)
    ensures forall i, j :: 0 <= i < j < k
                           ==> !InWeek(midnight, Week(first, i), t) || !InWeek(midnight, Week(first, j), t)
    decreases k
  {
    if k > 0 {
      WeeksTile(midnight, first, k - 1, t);
      if InWeek(midnight, Week(first, k - 1), t) {
        assert midnight(first) <= midnight(Week(first, k - 1));
      }
      assert midnight(Week(first, k - 1)) <= midnight(first + 7 * k);
    }
    forall i, j | 0 <= i < j < k
      ensures !InWeek(midnight, Week(first, i), t) || !InWeek(midnight, Week(first, j), t)
    {
      if InWeek(midnight, Week(first, i), t) && InWeek(midnight, Week(first, j), t) {
        WeeksDisjoint(midnight, Week(first, i), Week(first, j), t);
      }
    }
  }

  /** The i-th Monday after one. */
  function Week(first: int, i: int): int { first + 7 * i }

  /** A file of the current week, or later, is never selected. */
  lemma CurrentWeekKept(midnight: int -> int, today: int, t: int)
    requires Clock(midnight) && midnight(ThisMonday(today)) <= t
    ensures !InWeek(midnight, PriorMonday(today), t)
  {
  }

  // ---------------------------------------------------------------- years

  function DaysBefore(year: int): int {
    var y := year - 1;
    y * 365 + y / 4 - y / 100 + y / 400
  }

  function NewYear(year: int): int { DaysBefore(year) + 1 }

  predicate InYear(day: int, year: int) { NewYear(year) <= day < NewYear(year + 1) }

  /** The week of Monday m is archived on m + 7 at the earliest, and a year is consolidated on the
      next New Year's Day, after that day's weekly archive.  So the yearly archive can hold every
      week of its year exactly when that New Year's Day is a Monday. */
  lemma YearHoldsItsWeeks(year: int)
    ensures (forall m :: Monday(m) && InYear(m, year) ==> m + 7 <= NewYear(year + 1)) <==> Monday(NewYear(year + 1))
  {
    YearLength(year);
    SpanHoldsItsWeeks(NewYear(year), NewYear(year + 1));
  }

  predicate Leap(year: int) { year % 4 == 0 && (year % 100 == 0 ==> year % 400 == 0) }

  /** Years have the length they should. */
  lemma YearLength(year: int)
    ensures NewYear(year + 1) - NewYear(year) == if Leap(year) then 366 else 365
  {
    Fourths(year);
    Centuries(year);
    FourCenturies(year);
    assert year % 400 == 0 ==> year % 100 == 0;
    assert year % 100 == 0 ==> year % 4 == 0;
  }

  lemma Fourths(n: int)
    ensures n / 4 == (n - 1) / 4 + if n % 4 == 0 then 1 else 0
  {
  }

  lemma Centuries(n: int)
    ensures n / 100 == (n - 1) / 100 + if n % 100 == 0 then 1 else 0
  {
  }

  lemma FourCenturies(n: int)
    ensures n / 400 == (n - 1) / 400 + if n % 400 == 0 then 1 else 0
  {
  }

  lemma SpanHoldsItsWeeks(start: int, end: int)
    requires start + 7 <= end
    ensures (forall m :: Monday(m) && start <= m < end ==> m + 7 <= end) <==> Monday(end)
  {
    if !Monday(end) {
      var m := ThisMonday(end);
      assert Monday(m) && start <= m < end && m + 7 > end;
    } else {
      forall m | Monday(m) && start <= m < end ensures m + 7 <= end {
        MondaysApart(m, end);
      }
    }
  }

  lemma MondaysApart(a: int, b: int)
    requires Monday(a) && Monday(b) && a < b
    ensures a + 7 <= b
  {
  }

  /** Years do not overlap. */
  lemma {:induction false} YearsGrow(a: int, b: int)
    requires a <= b
    ensures NewYear(a) <= NewYear(b)
    decreases b - a
  {
    if a < b {
      YearsGrow(a, b - 1);
      YearLength(b - 1);
    }
  }

  lemma YearUnique(day: int, a: int, b: int)
    requires InYear(day, a) && InYear(day, b)
    ensures a == b
  {
    if a < b {
      YearsGrow(a + 1, b);
    } else if b < a {
      YearsGrow(b + 1, a);
    }
  }

  /** The year of a day; day 1 is the first there is. */
  function YearOf(day: int): (year: int)
    requires day >= 1
    ensures InYear(day, year)
  {
    YearFrom(day, 1)
  }

  function YearFrom(day: int, year: int): (y: int)
    requires NewYear(year) <= day
    ensures InYear(day, y)
    decreases day - NewYear(year)
  {
    YearLength(year);
    if day < NewYear(year + 1) then year else YearFrom(day, year + 1)
  }

  /** The first Monday of a year. */
  function FirstMonday(year: int): int {
    NewYear(year) + (7 - Weekday(NewYear(year))) % 7
  }

  lemma FirstMondayIs(year: int)
    ensures Monday(FirstMonday(year)) && InYear(FirstMonday(year), year) && FirstMonday(year) + 7 <= NewYear(year + 1)
  {
    YearLength(year);
    MondayAfter(NewYear(year));
  }

  lemma MondayAfter(day: int)
    ensures var m := day + (7 - Weekday(day)) % 7; Monday(m) && day <= m <= day + 6
  {
  }
}
