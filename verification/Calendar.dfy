/** The proleptic Gregorian calendar in UTC, as `datetime` computes with it, and the three
    truncations. An instant is a number of microseconds; day 0 is 0001-01-01. */
module Calendar {
  type Instant = int

  const HOUR: int := 3_600_000_000
  const DAY: int := 86_400_000_000

  datatype Date = Date(year: int, month: int, day: int)

  predicate IsLeap(y: int) { y % 4 == 0 && (y % 100 != 0 || y % 400 == 0) }

  function DaysInMonth(y: int, m: int): (n: nat)
    ensures 28 <= n <= 31
  {
    if m == 2 then (if IsLeap(y) then 29 else 28)
    else if m == 4 || m == 6 || m == 9 || m == 11 then 30
    else 31
  }

  predicate IsDate(d: Date) {
    1 <= d.year && 1 <= d.month <= 12 && 1 <= d.day <= DaysInMonth(d.year, d.month)
  }

  function DaysBeforeMonth(y: int, m: int): (n: nat)
    requires 1 <= m <= 12
    decreases m
  {
    if m == 1 then 0 else DaysBeforeMonth(y, m - 1) + DaysInMonth(y, m - 1)
  }

  function DaysInYear(y: int): nat { if IsLeap(y) then 366 else 365 }

  /** Days before January 1 of `y`, counted by the leap-year rule. */
  function DaysBeforeYear(y: int): int {
    var p := y - 1;
    p * 365 + p / 4 - p / 100 + p / 400
  }

  /** `date.toordinal`, with 0001-01-01 as day 0. */
  function Ordinal(d: Date): int
    requires IsDate(d)
  {
    DaysBeforeYear(d.year) + DaysBeforeMonth(d.year, d.month) + d.day - 1
  }

  function NextDay(d: Date): (r: Date)
    requires IsDate(d)
    ensures IsDate(r)
  {
    if d.day < DaysInMonth(d.year, d.month) then d.(day := d.day + 1)
    else if d.month < 12 then Date(d.year, d.month + 1, 1)
    else Date(d.year + 1, 1, 1)
  }

  /** `date.fromordinal`: the date `n` days after 0001-01-01. */
  function DateOf(n: nat): (d: Date)
    ensures IsDate(d)
  {
    if n == 0 then Date(1, 1, 1) else NextDay(DateOf(n - 1))
  }

  lemma LeapCounts(y: int)
    ensures y / 4 - (y - 1) / 4 == if y % 4 == 0 then 1 else 0
    ensures y / 100 - (y - 1) / 100 == if y % 100 == 0 then 1 else 0
    ensures y / 400 - (y - 1) / 400 == if y % 400 == 0 then 1 else 0
  {
  }

  lemma MultipleOf4(q: int)
    ensures 100 * q % 4 == 0
  {
    assert 100 * q == 4 * (25 * q);
  }

  lemma MultipleOf100(q: int)
    ensures 400 * q % 100 == 0
  {
    assert 400 * q == 100 * (4 * q);
  }

  lemma Centuries(y: int)
    ensures y % 400 == 0 ==> y % 100 == 0
    ensures y % 100 == 0 ==> y % 4 == 0
  {
    MultipleOf4(y / 100);
    MultipleOf100(y / 400);
  }

  /** The leap-year rule counts the days of each year. */
  lemma YearLength(y: int)
    ensures DaysBeforeYear(y + 1) == DaysBeforeYear(y) + DaysInYear(y)
  {
    LeapCounts(y);
    Centuries(y);
    var a, b, c, d, e, f := y / 4, (y - 1) / 4, y / 100, (y - 1) / 100, y / 400, (y - 1) / 400;
    assert DaysBeforeYear(y + 1) == y * 365 + a - c + e;
    assert DaysBeforeYear(y) == (y - 1) * 365 + b - d + f;
  }

  lemma MonthsFillYear(y: int)
    ensures DaysBeforeMonth(y, 12) + DaysInMonth(y, 12) == DaysInYear(y)
  {
    assert DaysBeforeMonth(y, 4) == DaysInMonth(y, 1) + DaysInMonth(y, 2) + DaysInMonth(y, 3);
    assert DaysBeforeMonth(y, 8) == DaysBeforeMonth(y, 4) + 30 + 31 + 30 + 31;
  }

  lemma NextDayOrdinal(d: Date)
    requires IsDate(d)
    ensures Ordinal(NextDay(d)) == Ordinal(d) + 1
  {
    hide DaysBeforeYear;
    YearLength(d.year);
    MonthsFillYear(d.year);
  }

  /** Counting days and reading dates off are inverse, one way … */
  lemma {:induction false} OrdinalOfDate(n: nat)
    ensures Ordinal(DateOf(n)) == n
  {
    if n > 0 {
      OrdinalOfDate(n - 1);
      NextDayOrdinal(DateOf(n - 1));
    }
  }

  lemma {:induction false} MonthOffset(y: int, m: int, k: int)
    requires 1 <= m <= k <= 12
    ensures DaysBeforeMonth(y, m) <= DaysBeforeMonth(y, k)
    ensures m < k ==> DaysBeforeMonth(y, m) + DaysInMonth(y, m) <= DaysBeforeMonth(y, k)
    decreases k
  {
    if m < k - 1 {
      MonthOffset(y, m, k - 1);
    }
  }

  lemma {:induction false} YearOffset(y: int, z: int)
    requires y < z
    ensures DaysBeforeYear(y) + DaysInYear(y) <= DaysBeforeYear(z)
    decreases z - y
  {
    YearLength(z - 1);
    if y < z - 1 {
      YearOffset(y, z - 1);
    }
  }

  predicate Earlier(d: Date, e: Date) {
    d.year < e.year || (d.year == e.year && (d.month < e.month || (d.month == e.month && d.day < e.day)))
  }

  lemma OrdinalIsMonotone(d: Date, e: Date)
    requires IsDate(d) && IsDate(e) && Earlier(d, e)
    ensures Ordinal(d) < Ordinal(e)
  {
    MonthsFillYear(d.year);
    MonthOffset(d.year, d.month, 12);
    if d.year < e.year {
      YearOffset(d.year, e.year);
    } else if d.month < e.month {
      MonthOffset(d.year, d.month, e.month);
    }
  }

  lemma OrdinalIsNat(d: Date)
    requires IsDate(d)
    ensures Ordinal(d) >= 0
  {
    if d != Date(1, 1, 1) {
      OrdinalIsMonotone(Date(1, 1, 1), d);
    }
  }

  /** … and the other. */
  lemma DateOfOrdinal(d: Date)
    requires IsDate(d)
    ensures Ordinal(d) >= 0 && DateOf(Ordinal(d)) == d
  {
    OrdinalIsNat(d);
    hide Ordinal;
    var e := DateOf(Ordinal(d));
    OrdinalOfDate(Ordinal(d));
    if Earlier(d, e) { OrdinalIsMonotone(d, e); }
    if Earlier(e, d) { OrdinalIsMonotone(e, d); }
  }

  // ---------------------------------------------------------------- truncation

  /** The dates the model covers; `datetime` has no earlier ones. */
  predicate IsInstant(t: Instant) { 0 <= t }

  function DayOf(t: Instant): (n: nat)
    requires IsInstant(t)
  {
    t / DAY
  }

  function TruncateToHour(t: Instant): Instant { t - t % HOUR }

  function TruncateToDay(t: Instant): Instant { t - t % DAY }

  /** Midnight of the first of the month. */
  function TruncateToMonth(t: Instant): Instant
    requires IsInstant(t)
  {
    var d := DateOf(DayOf(t));
    Ordinal(d.(day := 1)) * DAY
  }

  lemma FirstOfMonth(n: nat)
    ensures var d := DateOf(n); Ordinal(d.(day := 1)) == n - (d.day - 1) && 0 <= n - (d.day - 1) <= n
    ensures var d := DateOf(n); DateOf(n - (d.day - 1)) == d.(day := 1)
  {
    hide DaysBeforeYear;
    hide DaysBeforeMonth;
    hide DaysInMonth;
    hide DateOf;
    OrdinalOfDate(n);
    DateOfOrdinal(DateOf(n).(day := 1));
  }

  lemma DayAndHour(t: Instant)
    ensures TruncateToDay(t) <= TruncateToHour(t) <= t < TruncateToHour(t) + HOUR
    ensures TruncateToDay(t) == t / DAY * DAY && TruncateToDay(t) / DAY == t / DAY && TruncateToDay(t) % DAY == 0
    ensures TruncateToHour(t) == t / HOUR * HOUR && TruncateToHour(t) % HOUR == 0
    ensures t < TruncateToDay(t) + DAY
  {
    assert t / DAY * DAY == t / DAY * 24 * HOUR;
    assert t / HOUR >= t / DAY * 24;
  }

  /** Truncating to the month does not need to know the time of day. */
  lemma MonthOfDay(t: Instant)
    requires IsInstant(t)
    ensures IsInstant(TruncateToDay(t)) && TruncateToMonth(TruncateToDay(t)) == TruncateToMonth(t)
    ensures TruncateToMonth(t) <= TruncateToDay(t) && TruncateToMonth(t) % DAY == 0
  {
    hide DateOf;
    hide Ordinal;
    FirstOfMonth(DayOf(t));
    DayAndHour(t);
    assert DayOf(TruncateToDay(t)) == DayOf(t);
  }

  lemma MonthIsAligned(t: Instant)
    requires IsInstant(t)
    ensures IsInstant(TruncateToMonth(t)) && TruncateToMonth(TruncateToMonth(t)) == TruncateToMonth(t)
  {
    FirstOfMonth(DayOf(t));
    assert DayOf(TruncateToMonth(t)) == DayOf(t) - (DateOf(DayOf(t)).day - 1);
  }

  predicate Increasing(ts: seq<nat>) { forall i, j | 0 <= i < j < |ts| :: ts[i] < ts[j] }

  datatype Grain = ByHour | ByDay | ByMonth

  function Trunc(g: Grain, t: nat): (b: nat)
    ensures b <= t
  {
    MonthOfDay(t);
    MonthIsAligned(t);
    DayAndHour(t);
    match g
    case ByHour => TruncateToHour(t)
    case ByDay => TruncateToDay(t)
    case ByMonth => TruncateToMonth(t)
  }

  lemma TruncTwice(g: Grain, t: nat)
    ensures Trunc(g, Trunc(g, t)) == Trunc(g, t)
  {
    DayAndHour(t);
    DayAndHour(TruncateToDay(t));
    DayAndHour(TruncateToHour(t));
    MonthIsAligned(t);
  }

  // ---------------------------------------------------------------- the aggregation window

  datatype Window = Window(hourlyStart: Instant, dailyStart: Instant, monthlyStart: Instant, end: Instant)

  function PreviousMonth(d: Date): Date {
    if d.month == 1 then Date(d.year - 1, 12, 1) else Date(d.year, d.month - 1, 1)
  }

  /** `replace(year=0)` raises, so January of year 1 has no window. */
  predicate HasWindow(end: Instant) {
    IsInstant(end) && !(DateOf(DayOf(end)).year == 1 && DateOf(DayOf(end)).month == 1)
  }

  function WindowAt(end: Instant): Window
    requires HasWindow(end)
  {
    var d := DateOf(DayOf(end));
    Window(end - 24 * HOUR, TruncateToDay(end - 7 * DAY), Ordinal(PreviousMonth(d)) * DAY, end)
  }

  lemma PreviousMonthLength(d: Date)
    requires IsDate(d) && !(d.year == 1 && d.month == 1)
    ensures
      var p := PreviousMonth(d);
      IsDate(p) && Ordinal(d.(day := 1)) == Ordinal(p) + DaysInMonth(p.year, p.month)
  {
    hide DaysBeforeYear;
    if d.month == 1 {
      hide DaysInMonth;
      YearLength(d.year - 1);
      MonthsFillYear(d.year - 1);
    }
  }

  /** A previous month has at least 28 days, so its start is never later than the day a week
      ago, which in turn is never later than the moment a day ago. */
  lemma WindowIsOrdered(end: Instant)
    requires HasWindow(end)
    ensures
      var w := WindowAt(end);
      && 0 <= w.monthlyStart <= w.dailyStart <= w.hourlyStart <= w.end
      && w.monthlyStart % DAY == 0 && w.dailyStart % DAY == 0
  {
    hide DateOf;
    hide Ordinal;
    hide DaysInMonth;
    var n := DayOf(end);
    var d := DateOf(n);
    PreviousMonthLength(d);
    FirstOfMonth(n);
    OrdinalIsNat(PreviousMonth(d));
    var first := Ordinal(PreviousMonth(d));
    assert 0 <= first <= n - 28;
    DayAndHour(end);
    assert TruncateToDay(end - 7 * DAY) == (n - 7) * DAY;
  }

  /** The window covers the previous and the current month, and nothing else. */
  lemma WindowMonths(end: Instant, t: Instant)
    requires HasWindow(end) && 0 <= t <= end
    ensures
      var w := WindowAt(end);
      t >= w.monthlyStart <==> TruncateToMonth(t) == w.monthlyStart || TruncateToMonth(t) == TruncateToMonth(end)
  {
    hide DateOf;
    hide Ordinal;
    hide DaysInMonth;
    var d, e := DateOf(DayOf(t)), DateOf(DayOf(end));
    var p := PreviousMonth(e);
    PreviousMonthLength(e);
    FirstOfMonth(DayOf(end));
    FirstOfMonth(DayOf(t));
    OrdinalOfDate(DayOf(t));
    OrdinalOfDate(DayOf(end));
    DayAndHour(t);
    if t >= WindowAt(end).monthlyStart {
      assert DayOf(t) >= Ordinal(p);
      if Earlier(d, p) { OrdinalIsMonotone(d, p); }
      if Earlier(e, d) { OrdinalIsMonotone(e, d); }
    }
  }

  /** A month that has an instant in the window starts in it. */
  lemma MonthNotBefore(end: Instant, t: Instant)
    requires HasWindow(end) && 0 <= WindowAt(end).monthlyStart <= t <= end
    ensures WindowAt(end).monthlyStart <= TruncateToMonth(t)
  {
    hide DateOf;
    hide Ordinal;
    hide DaysInMonth;
    WindowMonths(end, t);
    PreviousMonthLength(DateOf(DayOf(end)));
  }

  /** Later runs do not reach further back. */
  lemma MonthlyStartIsMonotone(end: Instant, later: Instant)
    requires HasWindow(end) && HasWindow(later) && end <= later
    ensures WindowAt(end).monthlyStart <= WindowAt(later).monthlyStart
  {
    hide DateOf;
    hide Ordinal;
    hide DaysInMonth;
    var d, e := DateOf(DayOf(end)), DateOf(DayOf(later));
    PreviousMonthLength(d);
    PreviousMonthLength(e);
    OrdinalOfDate(DayOf(end));
    OrdinalOfDate(DayOf(later));
    assert DayOf(end) <= DayOf(later);
    if Earlier(e, d) { OrdinalIsMonotone(e, d); }
    if Earlier(PreviousMonth(d), PreviousMonth(e)) { OrdinalIsMonotone(PreviousMonth(d), PreviousMonth(e)); }
  }
}
