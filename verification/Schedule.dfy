/** The archive schedule day by day: archiving on Mondays, consolidation on the first of January. */
module Schedule {
  import opened Spool
  import opened Lifecycle
  import opened Calendar

  /** What the schedule works on. */
  datatype Yard = Yard(processed: Dir, weekly: map<int, WeekZip>, yearly: map<int, YearZip>)

  // ---------------------------------------------------------------- one day

  /** Archiving a week when nothing goes wrong. */
  function WeekBundled(y: Yard, midnight: int -> int, week: int): Yard {
    var files := Selected(y.processed, midnight, week);
    if week in y.weekly || files == map[] then y
    else y.(processed := y.processed - files.Keys, weekly := y.weekly[week := WeekZip(files, true)])
  }

  /** Consolidating a year when nothing goes wrong. */
  function YearBundled(y: Yard, year: int): Yard {
    var zips := ZipsOf(y.weekly, year);
    if year in y.yearly || zips == map[] then y
    else y.(weekly := y.weekly - zips.Keys, yearly := y.yearly[year := YearZip(zips, true)])
  }

  /** The yard after the weekly archive of a day. */
  function WeekTended(y: Yard, midnight: int -> int, today: int): Yard {
    if Monday(today) then WeekBundled(y, midnight, PriorMonday(today)) else y
  }

  /** One call of the scheduler. */
  function Tended(y: Yard, midnight: int -> int, today: int): Yard
    requires today >= 1
  {
    var y1 := WeekTended(y, midnight, today);
    if today == NewYear(YearOf(today)) then YearBundled(y1, YearOf(today) - 1) else y1
  }

  // ---------------------------------------------------------------- many days

  /** The yard on the morning of a day: what ingest put into processed/ is there. */
  function Morning(y: Yard, arrivals: Dir): Yard { y.(processed := y.processed + arrivals) }

  /** k days from `first`: in the morning any files may have arrived, then the scheduler is called. */
  function DaysBy(y: Yard, tend: (Yard, int) -> Yard, first: int, arrivals: int -> Dir, k: nat): Yard {
    if k == 0 then y
    else tend(Morning(DaysBy(y, tend, first, arrivals, k - 1), arrivals(first + k - 1)), first + k - 1)
  }

  function Keeper(midnight: int -> int): (Yard, int) -> Yard {
    (y: Yard, today: int) => if today >= 1 then Tended(y, midnight, today) else y
  }

  function Days(y: Yard, midnight: int -> int, first: int, arrivals: int -> Dir, k: nat): Yard {
    DaysBy(y, Keeper(midnight), first, arrivals, k)
  }

  /** If it is the turn of a week from `start` to before `eve`, the week has a file to archive. */
  predicate BusyDay(y: Yard, midnight: int -> int, today: int, arrivals: Dir, start: int, eve: int) {
    Monday(today) && start <= today - 7 < eve ==> Selected(Morning(y, arrivals).processed, midnight, today - 7) != map[]
  }

  predicate BusyOn(y: Yard, midnight: int -> int, first: int, arrivals: int -> Dir, start: int, eve: int, k: nat)
    requires first >= 1
  {
    BusyDay(Days(y, midnight, first, arrivals, k), midnight, first + k, arrivals(first + k), start, eve)
  }

  ghost predicate BusySpan(y: Yard, midnight: int -> int, first: int, arrivals: int -> Dir, start: int, eve: int)
    requires first >= 1
  {
    forall k: nat :: BusyOn(y, midnight, first, arrivals, start, eve, k)
  }

  /** When its turn comes, every week of the year has a file to archive. */
  ghost predicate Busy(y: Yard, midnight: int -> int, first: int, arrivals: int -> Dir, year: int)
    requires first >= 1
  {
    BusySpan(y, midnight, first, arrivals, NewYear(year), NewYear(year + 1))
  }

  /** Where week m of a year stands before the call of day `next`; `eve` is the New Year's Day after. */
  predicate Stands(y: Yard, year: int, eve: int, next: int, m: int) {
    && (year in y.yearly <==> eve < next)
    && (m in y.weekly <==> m + 7 < next && (next <= eve || eve < m + 7))
    && (year in y.yearly ==> (m in y.yearly[year].weeks <==> m + 7 <= eve))
  }

  lemma WeekStep(y: Yard, midnight: int -> int, today: int, m: int)
    requires Monday(m) && (m == today - 7 ==> m !in y.weekly && Selected(y.processed, midnight, m) != map[])
    ensures var y1 := WeekTended(y, midnight, today);
            y1.yearly == y.yearly && (m in y1.weekly <==> m in y.weekly || m + 7 == today)
  {
    if Monday(today) {
      assert PriorMonday(today) == today - 7;
    }
  }

  /** The consolidation of another year leaves this one alone. */
  lemma OtherYear(y: Yard, other: int, year: int, m: int)
    requires InYear(m, year) && other != year
    ensures var y1 := YearBundled(y, other);
            && (m in y1.weekly <==> m in y.weekly) && (year in y1.yearly <==> year in y.yearly)
            && (year in y.yearly ==> y1.yearly[year] == y.yearly[year])
  {
    if InYear(m, other) {
      YearUnique(m, other, year);
    }
  }

  /** The consolidation of the year itself takes all its weeks. */
  lemma OwnYear(y: Yard, year: int, m: int)
    requires InYear(m, year) && year !in y.yearly && ZipsOf(y.weekly, year) != map[]
    ensures var y1 := YearBundled(y, year);
            m !in y1.weekly && year in y1.yearly && (m in y1.yearly[year].weeks <==> m in y.weekly)
  {
  }

  /** Which year a day consolidates. */
  lemma TendedIs(y: Yard, midnight: int -> int, today: int, year: int) returns (other: int)
    requires today >= 1
    ensures var y1, y' := WeekTended(y, midnight, today), Tended(y, midnight, today);
            && (today == NewYear(year + 1) ==> y' == YearBundled(y1, year))
            && (today != NewYear(year + 1) ==> other != year && (y' == y1 || y' == YearBundled(y1, other)))
  {
    other := YearOf(today) - 1;
    if today == NewYear(year + 1) {
      YearLength(year + 1);
      YearUnique(today, year + 1, YearOf(today));
    } else if other == year {
      other := year + 1;
    }
  }

  /** One week, over one day, by what the day does to it. */
  lemma DayStep(y: Yard, y1: Yard, y': Yard, year: int, eve: int, today: int, m: int)
    requires Stands(y, year, eve, today, m)
    requires y1.yearly == y.yearly && (m in y1.weekly <==> m in y.weekly || m + 7 == today)
    requires today == eve ==> m !in y'.weekly && year in y'.yearly && (m in y'.yearly[year].weeks <==> m in y1.weekly)
    requires today != eve ==>
               && (m in y'.weekly <==> m in y1.weekly) && (year in y'.yearly <==> year in y1.yearly)
               && (year in y1.yearly ==> y'.yearly[year] == y1.yearly[year])
    ensures Stands(y', year, eve, today + 1, m)
  {
  }

  lemma MondayWeekLater(m: int, day: int)
    requires Monday(m) && day == m + 7
    ensures Monday(day)
  {
  }

  /** The weekly archive of a busy day. */
  lemma BusyWeekStep(y: Yard, midnight: int -> int, today: int, start: int, eve: int, year: int, m: int)
    requires Stands(y, year, eve, today, m) && Monday(m) && start <= m < eve
    requires Monday(today) && start <= today - 7 < eve ==> Selected(y.processed, midnight, today - 7) != map[]
    ensures var y1 := WeekTended(y, midnight, today);
            y1.yearly == y.yearly && (m in y1.weekly <==> m in y.weekly || m + 7 == today)
  {
    if m == today - 7 {
      MondayWeekLater(m, today);
    }
    WeekStep(y, midnight, today, m);
  }

  /** One week of the year, over one day; f, the first Monday, is there when the year is consolidated. */
  lemma WeekOverDay(y: Yard, midnight: int -> int, today: int, year: int, start: int, eve: int, m: int, f: int)
    requires today >= 1 && start == NewYear(year) && eve == NewYear(year + 1) && f == FirstMonday(year)
    requires Monday(m) && start <= m < eve && Stands(y, year, eve, today, m) && Stands(y, year, eve, today, f)
    requires Monday(today) && start <= today - 7 < eve ==> Selected(y.processed, midnight, today - 7) != map[]
    ensures Stands(Tended(y, midnight, today), year, eve, today + 1, m)
  {
    var y1, y' := WeekTended(y, midnight, today), Tended(y, midnight, today);
    BusyWeekStep(y, midnight, today, start, eve, year, m);
    var other := TendedIs(y, midnight, today, year);
    if today == eve {
      FirstMondayIs(year);
      BusyWeekStep(y, midnight, today, start, eve, year, f);
      assert f in ZipsOf(y1.weekly, year);
      OwnYear(y1, year, m);
    } else {
      OtherYear(y1, other, year, m);
    }
    DayStep(y, y1, y', year, eve, today, m);
  }

  /** Nothing of the year has been archived yet. */
  ghost predicate Untouched(y: Yard, year: int) {
    year !in y.yearly && forall m :: InYear(m, year) ==> m !in y.weekly
  }

  lemma UntouchedStands(y: Yard, year: int, eve: int, first: int, m: int)
    requires Untouched(y, year) && first <= NewYear(year) && eve == NewYear(year + 1) && InYear(m, year)
    ensures Stands(y, year, eve, first, m)
  {
  }

  /** Two weeks of the year, over one day and what arrives on it. */
  lemma NextDayStands(y: Yard, midnight: int -> int, today: int, arrivals: Dir, year: int, start: int, eve: int,
                      m: int, f: int)
    requires today >= 1 && start == NewYear(year) && eve == NewYear(year + 1) && f == FirstMonday(year)
    requires Monday(m) && start <= m < eve && Stands(y, year, eve, today, m) && Stands(y, year, eve, today, f)
    requires BusyDay(y, midnight, today, arrivals, start, eve)
    ensures var y' := Tended(Morning(y, arrivals), midnight, today);
            Stands(y', year, eve, today + 1, m) && Stands(y', year, eve, today + 1, f)
  {
    FirstMondayIs(year);
    WeekOverDay(Morning(y, arrivals), midnight, today, year, start, eve, m, f);
    WeekOverDay(Morning(y, arrivals), midnight, today, year, start, eve, f, f);
  }

  /** What holds in the morning of day k holds in the morning of the next. */
  ghost predicate Carries(y: Yard, tend: (Yard, int) -> Yard, first: int, arrivals: int -> Dir,
                          holds: (Yard, int) -> bool, k: nat) {
    var before := DaysBy(y, tend, first, arrivals, k);
    holds(before, first + k) ==> holds(tend(Morning(before, arrivals(first + k)), first + k), first + k + 1)
  }

  lemma {:induction false} CarriesThrough(y: Yard, tend: (Yard, int) -> Yard, first: int, arrivals: int -> Dir,
                                          holds: (Yard, int) -> bool, k: nat)
    requires holds(y, first) && forall j: nat :: Carries(y, tend, first, arrivals, holds, j)
    ensures holds(DaysBy(y, tend, first, arrivals, k), first + k)
  {
    if k > 0 {
      CarriesThrough(y, tend, first, arrivals, holds, k - 1);
      assert Carries(y, tend, first, arrivals, holds, k - 1);
    }
  }

  /** The statement carried from day to day: where week m stands, and the first week of the year. */
  function BothStand(year: int, eve: int, m: int, f: int): (Yard, int) -> bool {
    (y: Yard, next: int) => Stands(y, year, eve, next, m) && Stands(y, year, eve, next, f)
  }

  lemma DayCarries(y: Yard, midnight: int -> int, first: int, arrivals: int -> Dir, year: int, k: nat, m: int, f: int)
    requires first >= 1 && Busy(y, midnight, first, arrivals, year) && Monday(m) && InYear(m, year)
             && f == FirstMonday(year)
    ensures Carries(y, Keeper(midnight), first, arrivals, BothStand(year, NewYear(year + 1), m, f), k)
  {
    var start, eve, today := NewYear(year), NewYear(year + 1), first + k;
    var before := Days(y, midnight, first, arrivals, k);
    assert BusyOn(y, midnight, first, arrivals, start, eve, k);
    if BothStand(year, eve, m, f)(before, today) {
      NextDayStands(before, midnight, today, arrivals(today), year, start, eve, m, f);
    }
  }

  /** Week m of the year after k days. */
  lemma DaysStand(y: Yard, midnight: int -> int, first: int, arrivals: int -> Dir, year: int, k: nat, m: int)
    requires 1 <= first <= NewYear(year) && Untouched(y, year) && Busy(y, midnight, first, arrivals, year)
    requires Monday(m) && InYear(m, year)
    ensures Stands(Days(y, midnight, first, arrivals, k), year, NewYear(year + 1), first + k, m)
  {
    var eve, f := NewYear(year + 1), FirstMonday(year);
    FirstMondayIs(year);
    UntouchedStands(y, year, eve, first, m);
    UntouchedStands(y, year, eve, first, f);
    forall j: nat ensures Carries(y, Keeper(midnight), first, arrivals, BothStand(year, eve, m, f), j) {
      DayCarries(y, midnight, first, arrivals, year, j, m, f);
    }
    CarriesThrough(y, Keeper(midnight), first, arrivals, BothStand(year, eve, m, f), k);
  }

  // ---------------------------------------------------------------- what the year gets

  /** However long the schedule runs after the consolidation of a busy year, the yearly archive has every
      week of the year if and only if the next New Year's Day is a Monday. */
  lemma YearGetsItsWeeks(y: Yard, midnight: int -> int, first: int, arrivals: int -> Dir, year: int, k: nat)
    requires 1 <= first <= NewYear(year) && Untouched(y, year) && Busy(y, midnight, first, arrivals, year)
    requires NewYear(year + 1) < first + k
    ensures var after := Days(y, midnight, first, arrivals, k);
            year in after.yearly
            && ((forall m :: Monday(m) && InYear(m, year) ==> m in after.yearly[year].weeks)
                <==> Monday(NewYear(year + 1)))
  {
    var eve, f := NewYear(year + 1), FirstMonday(year);
    var after := Days(y, midnight, first, arrivals, k);
    FirstMondayIs(year);
    DaysStand(y, midnight, first, arrivals, year, k, f);
    YearHoldsItsWeeks(year);
    forall m | Monday(m) && InYear(m, year) ensures m in after.yearly[year].weeks <==> m + 7 <= eve {
      DaysStand(y, midnight, first, arrivals, year, k, m);
    }
  }

  /** Otherwise the last week's archive is made after the consolidation and is left in archives/ for
      good. */
  lemma LeftOverForGood(y: Yard, midnight: int -> int, first: int, arrivals: int -> Dir, year: int, k: nat)
    requires 1 <= first <= NewYear(year) && Untouched(y, year) && Busy(y, midnight, first, arrivals, year)
    requires !Monday(NewYear(year + 1)) && ThisMonday(NewYear(year + 1)) + 7 < first + k
    ensures var after, last := Days(y, midnight, first, arrivals, k), ThisMonday(NewYear(year + 1));
            InYear(last, year) && last in after.weekly && year in after.yearly && last !in after.yearly[year].weeks
  {
    var eve := NewYear(year + 1);
    LastMonday(year, eve);
    DaysStand(y, midnight, first, arrivals, year, k, ThisMonday(eve));
  }

  lemma LastMonday(year: int, eve: int)
    requires eve == NewYear(year + 1) && !Monday(eve)
    ensures Monday(ThisMonday(eve)) && InYear(ThisMonday(eve), year) && ThisMonday(eve) + 7 > eve
  {
    YearLength(year);
    MondayBefore(eve);
  }

  lemma MondayBefore(day: int)
    ensures Monday(ThisMonday(day)) && day - 6 <= ThisMonday(day) <= day
    ensures !Monday(day) ==> ThisMonday(day) < day
  {
  }

  /** In 2025, for one: its last Monday is the 29th of December (day 739614), and the first of January
      2026 (day 739617) is a Thursday. */
  lemma LeftOverOf2025(y: Yard, midnight: int -> int, first: int, arrivals: int -> Dir, k: nat)
    requires 1 <= first <= NewYear(2025) && Untouched(y, 2025) && Busy(y, midnight, first, arrivals, 2025)
    requires 739621 < first + k
    ensures NewYear(2026) == 739617 && Weekday(739617) == 3
    ensures 739614 in Days(y, midnight, first, arrivals, k).weekly
  {
    NewYear2026();
    LeftOverForGood(y, midnight, first, arrivals, 2025, k);
  }

  lemma NewYear2026()
    ensures NewYear(2026) == 739617 && Weekday(739617) == 3 && ThisMonday(739617) == 739614 && !Monday(739617)
  {
  }
}
