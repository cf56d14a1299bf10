/** The buckets a time range is split into, and the cache keys they are stored under. */
module TimeBuckets {
  import opened Calendar

  predicate IsAligned(g: Grain, b: nat) { Trunc(g, b) == b }

  /** How the loop moves on from a bucket. */
  function NextBucket(g: Grain, b: nat): int {
    match g
    case ByHour => b + HOUR
    case ByDay => b + DAY
    case ByMonth =>
      var d := DateOf(DayOf(b));
      Ordinal(NextFirst(d)) * DAY
  }

  /** December rolls over into January of the next year. */
  function NextFirst(d: Date): (r: Date)
    requires IsDate(d)
    ensures IsDate(r) && r.day == 1 && Earlier(d, r)
  {
    if d.month == 12 then Date(d.year + 1, 1, 1) else Date(d.year, d.month + 1, 1)
  }

  lemma HourGap(b: nat, c: nat)
    requires IsAligned(ByHour, b)
    ensures IsAligned(ByHour, b + HOUR) && (IsAligned(ByHour, c) && b < c ==> b + HOUR <= c)
  {
    DayAndHour(b);
    DayAndHour(c);
    DayAndHour(b + HOUR);
    var q, r := b / HOUR, c / HOUR;
    assert b == q * HOUR;
    assert (b + HOUR) / HOUR == q + 1;
    if IsAligned(ByHour, c) && b < c {
      assert c == r * HOUR && q < r;
    }
  }

  lemma DayGap(b: nat, c: nat)
    requires IsAligned(ByDay, b)
    ensures IsAligned(ByDay, b + DAY) && (IsAligned(ByDay, c) && b < c ==> b + DAY <= c)
  {
    DayAndHour(b);
    DayAndHour(c);
    DayAndHour(b + DAY);
    var q, r := b / DAY, c / DAY;
    assert b == q * DAY;
    assert (b + DAY) / DAY == q + 1;
    if IsAligned(ByDay, c) && b < c {
      assert c == r * DAY && q < r;
    }
  }

  lemma MonthStart(b: nat)
    ensures IsAligned(ByMonth, b) <==> b % DAY == 0 && DateOf(DayOf(b)).day == 1
  {
    var n := DayOf(b);
    FirstOfMonth(n);
    MonthOfDay(b);
    hide DateOf;
    hide Ordinal;
    assert Trunc(ByMonth, b) == (n - (DateOf(n).day - 1)) * DAY;
    assert b == n * DAY + b % DAY;
  }

  /** No first of a month lies between one and the next. */
  lemma NoFirstBetween(d: Date, e: Date)
    requires IsDate(d) && IsDate(e) && d.day == 1 && e.day == 1 && Ordinal(d) < Ordinal(e)
    ensures Ordinal(NextFirst(d)) <= Ordinal(e)
  {
    hide Ordinal;
    if Earlier(e, d) {
      OrdinalIsMonotone(e, d);
    }
    if Earlier(NextFirst(d), e) {
      OrdinalIsMonotone(NextFirst(d), e);
    }
  }

  lemma DayTimes(n: nat)
    ensures DayOf(n * DAY) == n && n * DAY % DAY == 0
  {
  }

  lemma MonthGap(b: nat, c: nat)
    requires IsAligned(ByMonth, b)
    ensures NextBucket(ByMonth, b) > b && IsAligned(ByMonth, NextBucket(ByMonth, b))
    ensures IsAligned(ByMonth, c) && b < c ==> NextBucket(ByMonth, b) <= c
  {
    hide DateOf;
    hide Ordinal;
    hide Trunc;
    hide NextFirst;
    MonthStart(b);
    var d := DateOf(DayOf(b));
    var next := NextFirst(d);
    OrdinalOfDate(DayOf(b));
    DateOfOrdinal(next);
    OrdinalIsMonotone(d, next);
    DayTimes(Ordinal(next));
    MonthStart(Ordinal(next) * DAY);
    if IsAligned(ByMonth, c) && b < c {
      MonthStart(c);
      OrdinalOfDate(DayOf(c));
      NoFirstBetween(d, DateOf(DayOf(c)));
    }
  }

  /** The next bucket is the next aligned instant. */
  lemma NoBucketBetween(g: Grain, b: nat, c: nat)
    requires IsAligned(g, b)
    ensures NextBucket(g, b) > b && IsAligned(g, NextBucket(g, b))
    ensures IsAligned(g, c) && b < c ==> NextBucket(g, b) <= c
  {
    match g
    case ByHour => HourGap(b, c);
    case ByDay => DayGap(b, c);
    case ByMonth => MonthGap(b, c);
  }

  /** The buckets are exactly the aligned instants from the truncated start to the end, in order. */
  method GenerateTimeBuckets(start: nat, end: int, g: Grain) returns (buckets: seq<nat>)
    ensures Increasing(buckets)
    ensures forall b: nat :: b in buckets <==> IsAligned(g, b) && Trunc(g, start) <= b <= end
  {
    hide NextBucket;
    hide IsAligned;
    buckets := [];
    var current: int := Trunc(g, start);
    StartIsAligned(g, start);
    while current <= end
      invariant 0 <= current && IsAligned(g, current) && Trunc(g, start) <= current
      invariant Increasing(buckets)
      invariant forall b: nat :: b in buckets <==> IsAligned(g, b) && Trunc(g, start) <= b <= end && b < current
      invariant forall i | 0 <= i < |buckets| :: buckets[i] < current
      decreases end - current
    {
      ghost var b0: nat := current;
      buckets := buckets + [current];
      forall c: nat
        ensures NextBucket(g, b0) > b0 && IsAligned(g, NextBucket(g, b0))
        ensures IsAligned(g, c) && b0 < c ==> NextBucket(g, b0) <= c
      {
        NoBucketBetween(g, b0, c);
      }
      current := NextBucket(g, current);
    }
  }

  lemma StartIsAligned(g: Grain, t: nat)
    ensures IsAligned(g, Trunc(g, t))
  {
    TruncTwice(g, t);
  }

  /** Every instant of the range is in exactly one bucket. */
  lemma OneBucketEach(buckets: seq<nat>, start: nat, end: int, g: Grain, t: nat)
    requires forall b: nat :: b in buckets <==> IsAligned(g, b) && Trunc(g, start) <= b <= end
    requires Trunc(g, start) <= t <= end
    ensures exists b :: b in buckets && b <= t < NextBucket(g, b)
    ensures forall b, c | b in buckets && c in buckets && b <= t < NextBucket(g, b) &&
      c <= t < NextBucket(g, c) :: b == c
  {
    var b := Trunc(g, t);
    TruncTwice(g, t);
    TruncTwice(g, start);
    hide NextBucket;
    NotBefore(g, Trunc(g, start), t);
    NotBeforeNext(g, t);
    assert b in buckets && b <= t < NextBucket(g, b);
    forall b, c | b in buckets && c in buckets && b <= t < NextBucket(g, b) && c <= t < NextBucket(g, c)
      ensures b == c
    {
      NoBucketBetween(g, b, c);
      NoBucketBetween(g, c, b);
    }
  }

  lemma NotBeforeNext(g: Grain, t: nat)
    ensures t < NextBucket(g, Trunc(g, t))
  {
    DayAndHour(t);
    if g.ByMonth? {
      MonthBeforeNext(t);
    }
  }

  lemma MonthBeforeNext(t: nat)
    ensures t < NextBucket(ByMonth, Trunc(ByMonth, t))
  {
    hide DateOf;
    hide Ordinal;
    hide NextFirst;
    var n := DayOf(t);
    var d := DateOf(n);
    FirstOfMonth(n);
    OrdinalOfDate(n);
    DayTimes(n - (d.day - 1));
    assert NextFirst(d.(day := 1)) == NextFirst(d) by {
      SameNextFirst(d);
    }
    OrdinalIsMonotone(d, NextFirst(d));
    assert n < Ordinal(NextFirst(d));
    DayAndHour(t);
  }

  lemma SameNextFirst(d: Date)
    requires IsDate(d)
    ensures NextFirst(d.(day := 1)) == NextFirst(d)
  {
  }

  /** Truncation finds the last aligned instant. */
  lemma NotBefore(g: Grain, b: nat, t: nat)
    requires IsAligned(g, b) && b <= t
    ensures b <= Trunc(g, t)
  {
    hide NextBucket;
    TruncTwice(g, t);
    NotBeforeNext(g, t);
    NoBucketBetween(g, Trunc(g, t), b);
  }
}
