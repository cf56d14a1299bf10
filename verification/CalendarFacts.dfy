/** Known dates and known windows: what the calendar says, in plain numbers. */
module CalendarFacts {
  import opened Calendar

  lemma UnitsAre()
    ensures HOUR == 60 * 60 * 1_000_000 && DAY == 24 * HOUR
  {
  }

  /** Thirty days have April, June, September and November; February has 28, or 29 in a leap year. */
  lemma MonthLengths(y: int, m: int)
    requires 1 <= m <= 12
    ensures DaysInMonth(y, m) == 30 <==> m in {4, 6, 9, 11}
    ensures m in {1, 3, 5, 7, 8, 10, 12} ==> DaysInMonth(y, m) == 31
    ensures m == 2 ==> DaysInMonth(y, m) == if y % 400 == 0 || (y % 4 == 0 && y % 100 != 0) then 29 else 28
  {
    CenturyRule(y);
    hide IsLeap;
  }

  lemma CenturyRule(y: int)
    ensures IsLeap(y) <==> y % 400 == 0 || (y % 4 == 0 && y % 100 != 0)
  {
    if y % 400 == 0 {
      var n := 100 * (y / 400);
      assert y == 4 * n;
      Fourfold(y, n);
    }
  }

  lemma Fourfold(y: int, n: int)
    requires y == 4 * n
    ensures y % 4 == 0
  {
  }

  /** Days since 0001-01-01; the first and every seventh after it are Mondays. */
  lemma KnownDates()
    ensures Ordinal(Date(1, 1, 1)) == 0 && Ordinal(Date(1900, 3, 1)) == 693654
    ensures Ordinal(Date(1970, 1, 1)) == 719162 && Ordinal(Date(2000, 2, 29)) == 730178
    ensures Ordinal(Date(2024, 1, 1)) == 738885 && Ordinal(Date(2024, 3, 1)) == 738945
    ensures Ordinal(Date(2024, 12, 31)) == 739250 && Ordinal(Date(2025, 1, 1)) == 739251
    ensures Ordinal(Date(2024, 1, 1)) % 7 == 0
  {
    assert DaysBeforeMonth(2024, 3) == 60;
    assert DaysBeforeMonth(1900, 3) == 59;
    assert DaysBeforeMonth(2000, 2) == 31;
    assert DaysBeforeMonth(2024, 7) == 182;
    assert DaysBeforeMonth(2024, 12) == 335;
  }

  /** What each truncation gives, in numbers. */
  lemma TruncationIs(t: nat)
    ensures Trunc(ByHour, t) % 3_600_000_000 == 0 && Trunc(ByHour, t) <= t < Trunc(ByHour, t) + 3_600_000_000
    ensures Trunc(ByDay, t) % 86_400_000_000 == 0 && Trunc(ByDay, t) <= t < Trunc(ByDay, t) + 86_400_000_000
    ensures Trunc(ByMonth, t) % 86_400_000_000 == 0 && Trunc(ByMonth, t) <= t
    ensures
      var d, m := DateOf(t / 86_400_000_000), DateOf(Trunc(ByMonth, t) / 86_400_000_000);
      m.year == d.year && m.month == d.month && m.day == 1
  {
    DayAndHour(t);
    MonthOfDay(t);
    FirstOfMonth(DayOf(t));
  }

  /** The window of a run: a day back to the microsecond, a week back to midnight, and the first of
      the previous month. */
  lemma WindowIs(end: nat)
    requires HasWindow(end)
    ensures WindowAt(end).end == end && WindowAt(end).hourlyStart == end - 86_400_000_000
    ensures
      var d := WindowAt(end).dailyStart;
      d % 86_400_000_000 == 0 && end - 8 * 86_400_000_000 < d <= end - 7 * 86_400_000_000
    ensures
      var m, d := WindowAt(end).monthlyStart, DateOf(end / 86_400_000_000);
      && m >= 0 && m % 86_400_000_000 == 0
      && DateOf(m / 86_400_000_000) == if d.month == 1 then Date(d.year - 1, 12, 1) else Date(d.year, d.month - 1, 1)
  {
    WindowIsOrdered(end);
    var p := PreviousMonth(DateOf(DayOf(end)));
    PreviousMonthLength(DateOf(DayOf(end)));
    DateOfOrdinal(p);
    OrdinalIsNat(p);
    DayAndHour(end - 7 * DAY);
    hide DateOf;
    hide Ordinal;
    assert WindowAt(end).monthlyStart / DAY == Ordinal(p);
  }

  lemma WindowOn(t: nat, d: Date, day: int, month: int)
    requires IsDate(d) && Ordinal(d) == t / DAY && !(d.year == 1 && d.month == 1)
    requires IsDate(PreviousMonth(d)) && Ordinal(PreviousMonth(d)) == month
    requires t - 7 * DAY - (t - 7 * DAY) % DAY == day
    ensures HasWindow(t) && WindowAt(t) == Window(t - 24 * HOUR, day, month * DAY, t)
  {
    DateIs(t / DAY, d);
    hide DateOf;
    hide Ordinal;
  }

  /** Runs at half past ten on 15 March and on 10 January 2024. */
  lemma KnownWindows()
    ensures
      var t := 738959 * DAY + 37_800_000_000;
      HasWindow(t) && WindowAt(t) == Window(738958 * DAY + 37_800_000_000, 738952 * DAY, 738916 * DAY, t)
    ensures
      var t := 738894 * DAY + 37_800_000_000;
      HasWindow(t) && WindowAt(t) == Window(738893 * DAY + 37_800_000_000, 738887 * DAY, 738854 * DAY, t)
  {
    hide DateOf;
    hide Ordinal;
    KnownOrdinals();
    HalfPastTen(738959);
    HalfPastTen(738894);
    WindowOn(738959 * DAY + 37_800_000_000, Date(2024, 3, 15), 738952 * DAY, 738916);
    WindowOn(738894 * DAY + 37_800_000_000, Date(2024, 1, 10), 738887 * DAY, 738854);
  }

  lemma DateIs(n: nat, d: Date)
    requires IsDate(d) && Ordinal(d) == n
    ensures DateOf(n) == d
  {
    DateOfOrdinal(d);
  }

  lemma HalfPastTen(n: nat)
    requires n >= 7
    ensures
      var t := n * DAY + 37_800_000_000;
      t / DAY == n && t - 7 * DAY - (t - 7 * DAY) % DAY == (n - 7) * DAY
      && t - 24 * HOUR == (n - 1) * DAY + 37_800_000_000
  {
  }

  lemma KnownOrdinals()
    ensures IsDate(Date(2024, 3, 15)) && Ordinal(Date(2024, 3, 15)) == 738959
    ensures IsDate(Date(2024, 1, 10)) && Ordinal(Date(2024, 1, 10)) == 738894
    ensures PreviousMonth(Date(2024, 3, 15)) == Date(2024, 2, 1)
    ensures PreviousMonth(Date(2024, 1, 10)) == Date(2023, 12, 1)
    ensures IsDate(Date(2024, 2, 1)) && Ordinal(Date(2024, 2, 1)) == 738916
    ensures IsDate(Date(2023, 12, 1)) && Ordinal(Date(2023, 12, 1)) == 738854
  {
    assert DaysBeforeMonth(2024, 3) == 60;
    assert DaysBeforeMonth(2023, 7) == 181;
    assert DaysBeforeMonth(2023, 12) == 334;
  }
}
