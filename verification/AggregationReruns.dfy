/** Repeating and failing: what a run leaves out, another one puts right, and what is final stays. */
module AggregationReruns {
  import opened Calendar
  import opened MetricQueries
  import opened MetricRollup
  import opened MetricAggregation
  import opened AggregationHistory
  import opened Options

  /** Whatever `x` got written, `y` did too. */
  ghost predicate Within(x: map<Org, set<Metric>>, y: map<Org, set<Metric>>) {
    forall o | o in x :: o in y && x[o] <= y[o]
  }

  ghost predicate LogWithin(x: Log, y: Log) {
    Within(x.hourly, y.hourly) && Within(x.daily, y.daily) && Within(x.monthly, y.monthly)
  }

  lemma SameEverywhere(x: Rows, y: Rows)
    requires forall k :: SameAt(x, y, k)
    ensures x == y
  {
    forall k
      ensures k in x <==> k in y
      ensures k in x ==> x[k] == y[k]
    {
      assert SameAt(x, y, k);
    }
  }

  lemma WithinWrites(k: Key, src: Sources, x: map<Org, set<Metric>>, y: map<Org, set<Metric>>, tier: Tier, w: Window)
    requires Within(x, y) && Writes(k, src, x, tier, w)
    ensures Writes(k, src, y, tier, w)
  {
  }

  /** `b` comes from `a` by a run with failures, `c` from `a` and `d` from `b` by the run without:
      every row of `b` is as it was or as it should be, and `d` is as if nothing had failed. */
  lemma TierRetry(a: Rows, b: Rows, c: Rows, d: Rows, tier: Tier, src: Sources,
                  x: map<Org, set<Metric>>, y: map<Org, set<Metric>>, w: Window)
    requires TierRun(a, b, tier, src, x, w) && TierRun(a, c, tier, src, y, w) && TierRun(b, d, tier, src, y, w)
    requires Within(x, y)
    ensures forall k :: SameAt(a, b, k) || SameAt(c, b, k)
    ensures d == c
  {
    hide TierHas;
    hide WrittenAt;
    forall k
      ensures (SameAt(a, b, k) || SameAt(c, b, k)) && SameAt(d, c, k)
    {
      if Writes(k, src, x, tier, w) {
        WithinWrites(k, src, x, y, tier, w);
      }
    }
    SameEverywhere(d, c);
  }

  /** Under any failures every stored row is its previous value or the value the failure-free run
      writes, and running again without failures gives what the failure-free run would have. */
  lemma FailuresLeaveOldOrFinal(a: Tables, b: Tables, c: Tables, d: Tables, src: Sources, x: Log, y: Log, w: Window)
    requires Ran(a, b, src, x, w) && Ran(a, c, src, y, w) && Ran(b, d, src, y, w) && LogWithin(x, y)
    ensures forall tier, k ::
      SameAt(TierRows(a, tier), TierRows(b, tier), k) || SameAt(TierRows(c, tier), TierRows(b, tier), k)
    ensures d == c
  {
    hide TierRun;
    hide Within;
    forall tier
      ensures forall k ::
        SameAt(TierRows(a, tier), TierRows(b, tier), k) || SameAt(TierRows(c, tier), TierRows(b, tier), k)
      ensures TierRows(d, tier) == TierRows(c, tier)
    {
      TierRetry(TierRows(a, tier), TierRows(b, tier), TierRows(c, tier), TierRows(d, tier), tier, src,
                LogAt(x, tier), LogAt(y, tier), w);
    }
    assert TierRows(d, Hourly) == TierRows(c, Hourly) && TierRows(d, Daily) == TierRows(c, Daily)
      && TierRows(d, Monthly) == TierRows(c, Monthly);
  }

  lemma TierRerun(a: Rows, b: Rows, c: Rows, tier: Tier, src: Sources,
                  x: map<Org, set<Metric>>, y: map<Org, set<Metric>>, w: Window)
    requires TierRun(a, b, tier, src, y, w) && TierRun(b, c, tier, src, x, w) && Within(x, y)
    ensures c == b
  {
    hide TierHas;
    hide WrittenAt;
    forall k
      ensures SameAt(c, b, k)
    {
      if Writes(k, src, x, tier, w) {
        WithinWrites(k, src, x, y, tier, w);
      }
    }
    SameEverywhere(c, b);
  }

  /** Repeating a run with the same sources and end date, in whole or in part, changes nothing. */
  lemma RerunChangesNothing(a: Tables, b: Tables, c: Tables, src: Sources, x: Log, y: Log, w: Window)
    requires Ran(a, b, src, y, w) && Ran(b, c, src, x, w) && LogWithin(x, y)
    ensures c == b
  {
    hide TierRun;
    TierRerun(a.hourly, b.hourly, c.hourly, Hourly, src, x.hourly, y.hourly, w);
    TierRerun(a.daily, b.daily, c.daily, Daily, src, x.daily, y.daily, w);
    TierRerun(a.monthly, b.monthly, c.monthly, Monthly, src, x.monthly, y.monthly, w);
  }

  // ---------------------------------------------------------------- organizations without new rows

  /** No source row of the organization since `dailyStart`, in any table. */
  ghost predicate Dormant(src: Sources, o: Org, w: Window) {
    forall m, s | s in SamplesOf(src, o, m) :: s.at < w.dailyStart
  }

  /** An earlier run that got everything of the organization written, after its last row. */
  ghost predicate CaughtUp(run: Run, src: Sources, o: Org) {
    && (forall m :: SamplesOf(run.src, o, m) == SamplesOf(src, o, m))
    && (forall m, s | s in SamplesOf(src, o, m) :: s.at <= run.end)
    && o in run.log.monthly && run.log.monthly[o] == ALL_METRICS
  }

  /** The monthly row that holds every sample. */
  function Final(ss: seq<Sample>, k: Key, end: nat): Agg {
    Agg(KindOf(k.metric), BucketSum(ss, ByMonth, k.bucket, 0, end), |ActiveDays(ss, k.bucket, 0, end)|)
  }

  lemma {:induction false} SameHitsSameSum(ss: seq<Sample>, g: Grain, b: nat, lo: int, hi: int, lo': int, hi': int)
    requires forall s | s in ss :: Hits(s, g, b, lo, hi) == Hits(s, g, b, lo', hi')
    ensures BucketSum(ss, g, b, lo, hi) == BucketSum(ss, g, b, lo', hi')
  {
    if ss != [] {
      assert ss[|ss| - 1] in ss && forall s | s in ss[..|ss| - 1] :: s in ss;
      SameHitsSameSum(ss[..|ss| - 1], g, b, lo, hi, lo', hi');
    }
  }

  /** Once a month has all its samples, every later run that still covers it writes the same. */
  lemma MonthIsFinal(ss: seq<Sample>, k: Key, end: nat, later: nat)
    requires HasWindow(later) && end <= later && WindowAt(later).monthlyStart <= k.bucket
    requires forall s | s in ss :: s.at <= end
    ensures TierAgg(k.metric, ss, Monthly, k.bucket, WindowAt(later)) == Final(ss, k, end)
  {
    var w := WindowAt(later);
    WindowIsOrdered(later);
    hide WindowAt;
    hide Trunc;
    WindowEnd(later);
    forall s | s in ss
      ensures Hits(s, ByMonth, k.bucket, w.monthlyStart, later) == Hits(s, ByMonth, k.bucket, 0, end)
    {
      assert Trunc(ByMonth, s.at) <= s.at;
    }
    SameHitsSameSum(ss, ByMonth, k.bucket, w.monthlyStart, later, 0, end);
    assert ActiveDays(ss, k.bucket, w.monthlyStart, later) == ActiveDays(ss, k.bucket, 0, end);
  }

  /** After that run the organization's sources no longer change. */
  lemma SourcesSettled(tabs: seq<Tables>, runs: seq<Run>, j: nat, i: nat, n: nat, o: Org, m: Metric)
    requires History(tabs, runs) && j <= i <= n < |runs| && CaughtUp(runs[j], runs[n].src, o)
    ensures SamplesOf(runs[i].src, o, m) == SamplesOf(runs[n].src, o, m)
    ensures forall s | s in SamplesOf(runs[n].src, o, m) :: s.at <= runs[j].end
    ensures runs[j].end <= runs[i].end <= runs[n].end
    ensures o in runs[j].log.monthly && runs[j].log.monthly[o] == ALL_METRICS
  {
    RunsInOrder(tabs, runs, j, i);
    RunsInOrder(tabs, runs, i, n);
    assert SamplesOf(runs[j].src, o, m) == SamplesOf(runs[n].src, o, m);
    assert SamplesOf(runs[j].src, o, m) <= SamplesOf(runs[i].src, o, m) <= SamplesOf(runs[n].src, o, m);
  }

  lemma WritesMonth(k: Key, src: Sources, wrote: map<Org, set<Metric>>, w: Window)
    requires k.org in wrote && k.metric in wrote[k.org] && k == KeyOf(k.org, k.bucket, k.metric)
    requires TierHas(SamplesOf(src, k.org, k.metric), Monthly, k.bucket, w)
    ensures Writes(k, src, wrote, Monthly, w)
  {
  }

  /** From the run that caught up on, the row stays final. */
  lemma {:induction false} MonthStaysFinal(tabs: seq<Tables>, runs: seq<Run>, j: nat, i: nat, n: nat, k: Key)
    requires History(tabs, runs) && |tabs| == |runs| + 1 && j <= i <= n < |runs|
    requires CaughtUp(runs[j], runs[n].src, k.org) && k == KeyOf(k.org, k.bucket, k.metric) && k.metric in ALL_METRICS
    requires HasWindow(runs[n].end) && WindowAt(runs[n].end).monthlyStart <= k.bucket
    requires BucketHas(SamplesOf(runs[n].src, k.org, k.metric), ByMonth, k.bucket, 0, runs[n].end)
    ensures k in tabs[i + 1].monthly
    ensures tabs[i + 1].monthly[k] == Final(SamplesOf(runs[n].src, k.org, k.metric), k, runs[j].end)
    decreases i
  {
    hide History;
    hide CaughtUp;
    hide SamplesOf;
    hide AllNonNegative;
    hide BucketHas;
    hide TierHas;
    hide TierAgg;
    hide Final;
    hide Writes;
    hide WindowAt;
    var ss := SamplesOf(runs[n].src, k.org, k.metric);
    SourcesSettled(tabs, runs, j, i, n, k.org, k.metric);
    RowAfterRun(tabs, runs, i, Monthly, k);
    MonthlyStartIsMonotone(runs[i].end, runs[n].end);
    MonthIsFinal(ss, k, runs[j].end, runs[i].end);
    if i == j {
      SeenByThen(ss, k, runs[n].end, runs[j].end);
      WritesMonth(k, runs[j].src, runs[j].log.monthly, WindowAt(runs[j].end));
    } else if !Writes(k, runs[i].src, runs[i].log.monthly, Monthly, WindowAt(runs[i].end)) {
      MonthStaysFinal(tabs, runs, j, i - 1, n, k);
    }
  }

  lemma SeenByThen(ss: seq<Sample>, k: Key, later: nat, end: nat)
    requires HasWindow(end) && WindowAt(end).monthlyStart <= k.bucket
    requires BucketHas(ss, ByMonth, k.bucket, 0, later) && forall s | s in ss :: s.at <= end
    ensures TierHas(ss, Monthly, k.bucket, WindowAt(end))
  {
    WindowIsOrdered(end);
    hide WindowAt;
    WindowEnd(end);
    var s :| s in ss && Hits(s, ByMonth, k.bucket, 0, later);
    assert Trunc(ByMonth, s.at) <= s.at;
    hide Trunc;
    assert Hits(s, ByMonth, k.bucket, WindowAt(end).monthlyStart, end);
  }

  lemma DormantWritesMonthsOnly(src: Sources, o: Org, k: Key, tier: Tier, end: nat)
    requires HasWindow(end) && Dormant(src, o, WindowAt(end)) &&
      Writes(k, src, map[o := ALL_METRICS], tier, WindowAt(end))
    ensures tier.Monthly? && WindowAt(end).monthlyStart <= k.bucket
    ensures BucketHas(SamplesOf(src, o, k.metric), ByMonth, k.bucket, 0, end)
  {
    var w := WindowAt(end);
    WindowIsOrdered(end);
    hide WindowAt;
    WindowEnd(end);
    var ss := SamplesOf(src, o, k.metric);
    var s :| s in ss && Hits(s, GrainOf(tier), k.bucket, StartOf(tier, w), w.end);
    assert s.at < w.dailyStart;
    BucketInWindow(ss, tier, k.bucket, end);
    assert Hits(s, ByMonth, k.bucket, 0, end);
  }

  // ---------------------------------------------------------------- the straddled hour, on the clock

  const FEB10: nat := 405
  const TEN: nat := FEB10 * DAY + 10 * HOUR

  lemma YearTwo(n: nat)
    requires n == 405 || n == 406
    ensures DateOf(n).year == 2
  {
    var d := Date(2, 2, n - 395);
    assert Ordinal(d) == n;
    DateOfOrdinal(d);
  }

  lemma DayNumbers()
    ensures DayOf(TEN + HOUR) == FEB10 && DayOf(TEN + DAY + HOUR / 2) == FEB10 + 1
    ensures Trunc(ByHour, TEN + HOUR / 4) == TEN && Trunc(ByHour, TEN + 3 * HOUR / 4) == TEN
  {
  }

  lemma WindowsInFebruary()
    ensures HasWindow(TEN + HOUR) && HasWindow(TEN + DAY + HOUR / 2)
    ensures WindowAt(TEN + HOUR).hourlyStart == TEN - DAY + HOUR
    ensures WindowAt(TEN + DAY + HOUR / 2).hourlyStart == TEN + HOUR / 2
  {
    hide DateOf;
    hide Ordinal;
    hide DayOf;
    DayNumbers();
    YearTwo(405);
    YearTwo(406);
  }

  lemma SumOfTwo(x: Sample, y: Sample, b: nat, lo: int, hi: int)
    ensures BucketSum([x, y], ByHour, b, lo, hi) ==
            (if Hits(x, ByHour, b, lo, hi) then Or0(x.amount) else 0.0) +
            (if Hits(y, ByHour, b, lo, hi) then Or0(y.amount) else 0.0)
  {
    hide Hits;
    assert [x, y][..1] == [x] && [x][..0] == [];
    assert BucketSum([x], ByHour, b, lo, hi) == if Hits(x, ByHour, b, lo, hi) then Or0(x.amount) else 0.0;
  }

  lemma HourOfTwo(src: Sources, x: Sample, y: Sample, wrote: map<Org, set<Metric>>, w: Window)
    requires SamplesOf(src, 0, PromptExecutions) == [x, y] && 0 in wrote && PromptExecutions in wrote[0]
    requires Hits(y, ByHour, TEN, w.hourlyStart, w.end)
    ensures
      var k := KeyOf(0, TEN, PromptExecutions);
      && Writes(k, src, wrote, Hourly, w)
      && WrittenAt(k, src, Hourly, w).value ==
           (if Hits(x, ByHour, TEN, w.hourlyStart, w.end) then Or0(x.amount) else 0.0) + Or0(y.amount)
  {
    hide SamplesOf;
    hide Hits;
    SumOfTwo(x, y, TEN, w.hourlyStart, w.end);
    assert y in [x, y];
  }

  const EARLY: Sample := Sample(TEN + HOUR / 4, Some(1.0))
  const LATE: Sample := Sample(TEN + 3 * HOUR / 4, Some(1.0))

  lemma SeenTwiceAndOnce(u: Window, v: Window)
    requires u.hourlyStart == TEN - DAY + HOUR && u.end == TEN + HOUR
    requires v.hourlyStart == TEN + HOUR / 2 && v.end == TEN + DAY + HOUR / 2
    ensures Hits(EARLY, ByHour, TEN, u.hourlyStart, u.end) && Hits(LATE, ByHour, TEN, u.hourlyStart, u.end)
    ensures !Hits(EARLY, ByHour, TEN, v.hourlyStart, v.end) && Hits(LATE, ByHour, TEN, v.hourlyStart, v.end)
  {
    hide Trunc;
    DayNumbers();
  }

  lemma TierRunAt(before: Rows, after: Rows, tier: Tier, src: Sources, wrote: map<Org, set<Metric>>, w: Window, k: Key)
    requires TierRun(before, after, tier, src, wrote, w) && Writes(k, src, wrote, tier, w)
    ensures k in after && after[k] == WrittenAt(k, src, tier, w)
  {
  }

  /** Two executions, at 10:15 and at 10:45. A run at 11:00 writes 2 for ten o'clock; the run at
      10:30 the next day still sees the second one only, and writes 1 over it. */
  lemma StraddledHourDrops(a: Rows, b: Rows, c: Rows, src: Sources)
    requires SamplesOf(src, 0, PromptExecutions) == [EARLY, LATE]
    requires HasWindow(TEN + HOUR) && TierRun(a, b, Hourly, src, map[0 := ALL_METRICS], WindowAt(TEN + HOUR))
    requires HasWindow(TEN + DAY + HOUR / 2)
    requires TierRun(b, c, Hourly, src, map[0 := ALL_METRICS], WindowAt(TEN + DAY + HOUR / 2))
    ensures var k := KeyOf(0, TEN, PromptExecutions); k in b && b[k].value == 2.0 && k in c && c[k].value == 1.0
  {
    hide SamplesOf;
    hide WrittenAt;
    hide Writes;
    hide WindowAt;
    hide TierRun;
    hide Hits;
    WindowsInFebruary();
    WindowEnd(TEN + HOUR);
    WindowEnd(TEN + DAY + HOUR / 2);
    SeenTwiceAndOnce(WindowAt(TEN + HOUR), WindowAt(TEN + DAY + HOUR / 2));
    var k, all := KeyOf(0, TEN, PromptExecutions), map[0 := ALL_METRICS];
    var u, v := WindowAt(TEN + HOUR), WindowAt(TEN + DAY + HOUR / 2);
    HourOfTwo(src, EARLY, LATE, all, u);
    HourOfTwo(src, EARLY, LATE, all, v);
    TierRunAt(a, b, Hourly, src, all, u, k);
    TierRunAt(b, c, Hourly, src, all, v, k);
  }

  /** Sources like that exist. */
  lemma StraddledHourSources() returns (src: Sources)
    ensures SamplesOf(src, 0, PromptExecutions) == [EARLY, LATE]
  {
    src := map[0 := OrgSources(map[PromptExecutions := [EARLY, LATE]], [])];
  }
}
