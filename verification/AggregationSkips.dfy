/** When it is right to skip an organization: what the tables hold of it, against what a run that
    processed it would write. */
module AggregationSkips {
  import opened Calendar
  import opened Options
  import opened MetricQueries
  import opened MetricRollup
  import opened MetricAggregation
  import opened AggregationHistory
  import opened AggregationReruns

  // ---------------------------------------------------------------- one bucket, seen in part

  /** Sample `i` is among the first `c` and not after `e`. */
  predicate SeenAt(ss: seq<Sample>, c: nat, e: int, i: nat) { i < c && i < |ss| && ss[i].at <= e }

  /** The sample was seen, or it is worth nothing and something was seen on its day. */
  ghost predicate AddsNothing(ss: seq<Sample>, c: nat, e: int, i: nat)
    requires i < |ss|
  {
    SeenAt(ss, c, e, i) || (Or0(ss[i].amount) == 0.0 && DayIsSeen(ss, c, e, Trunc(ByDay, ss[i].at)))
  }

  ghost predicate DayIsSeen(ss: seq<Sample>, c: nat, e: int, day: nat) {
    exists j: nat | j < |ss| :: SeenAt(ss, c, e, j) && Trunc(ByDay, ss[j].at) == day
  }

  /** Nothing of the bucket that was not seen is worth anything. */
  ghost predicate RestIsZero(ss: seq<Sample>, g: Grain, b: nat, lo: int, c: nat, e: int, hi: int) {
    forall i: nat | i < |ss| && Hits(ss[i], g, b, lo, hi) && !SeenAt(ss, c, e, i) :: Or0(ss[i].amount) == 0.0
  }

  lemma RestIsZeroSteps(ss: seq<Sample>, g: Grain, b: nat, lo: int, c: nat, e: int, hi: int)
    requires ss != [] && c <= |ss|
    ensures
      var n := |ss| - 1;
      RestIsZero(ss, g, b, lo, c, e, hi) <==>
        && RestIsZero(ss[..n], g, b, lo, if c <= n then c else n, e, hi)
        && (Hits(ss[n], g, b, lo, hi) && !SeenAt(ss, c, e, n) ==> Or0(ss[n].amount) == 0.0)
  {
    hide Hits;
    var n := |ss| - 1;
    var rest, d := ss[..n], if c <= n then c else n;
    assert forall i: nat | i < n :: ss[i] == rest[i] && SeenAt(ss, c, e, i) == SeenAt(rest, d, e, i);
  }

  /** The part of a bucket that was seen adds up to all of it if and only if the rest is zero. */
  lemma {:induction false} SeenSumIff(ss: seq<Sample>, g: Grain, b: nat, lo: int, c: nat, e: int, hi: int)
    requires NonNegative(ss) && c <= |ss| && e <= hi
    ensures BucketSum(ss[..c], g, b, lo, e) <= BucketSum(ss, g, b, lo, hi)
    ensures BucketSum(ss[..c], g, b, lo, e) == BucketSum(ss, g, b, lo, hi) <==> RestIsZero(ss, g, b, lo, c, e, hi)
    decreases |ss|
  {
    hide Trunc;
    if ss != [] {
      hide RestIsZero;
      var n := |ss| - 1;
      var d := if c <= n then c else n;
      SeenSumIff(ss[..n], g, b, lo, d, e, hi);
      RestIsZeroSteps(ss, g, b, lo, c, e, hi);
      assert ss[..n][..d] == ss[..d];
      if c > n {
        assert ss[..c] == ss;
      }
    }
  }

  lemma SameCard<T>(a: set<T>, b: set<T>)
    requires a <= b
    ensures |a| == |b| <==> a == b
  {
    assert |b - a| == |b| - |a|;
    if |a| == |b| {
      assert b - a == {};
    }
  }

  /** What the tier's query up to `e` reports for a bucket. */
  function PartAgg(m: Metric, xs: seq<Sample>, tier: Tier, b: nat, lo: int, e: int): Agg {
    Agg(KindOf(m), BucketSum(xs, GrainOf(tier), b, lo, e), if tier.Monthly? then |ActiveDays(xs, b, lo, e)| else 1)
  }

  lemma SeenHits(ss: seq<Sample>, tier: Tier, b: nat, lo: int, c: nat, e: int, hi: int, day: nat)
    requires !tier.Hourly? && c <= |ss| && lo <= b && Trunc(GrainOf(tier), day) == b && e <= hi
    ensures DayIsSeen(ss, c, e, day) <==>
      exists s :: s in ss[..c] && Hits(s, GrainOf(tier), b, lo, e) && Trunc(ByDay, s.at) == day
  {
    hide Trunc;
    if DayIsSeen(ss, c, e, day) {
      var j: nat :| j < |ss| && SeenAt(ss, c, e, j) && Trunc(ByDay, ss[j].at) == day;
      var s := ss[j];
      assert s == ss[..c][j];
      DayInBucket(tier, s.at);
      assert s in ss[..c] && Hits(s, GrainOf(tier), b, lo, e) && Trunc(ByDay, s.at) == day;
    }
    if s :| s in ss[..c] && Hits(s, GrainOf(tier), b, lo, e) && Trunc(ByDay, s.at) == day {
      var j :| 0 <= j < c && ss[..c][j] == s;
      assert SeenAt(ss, c, e, j);
    }
  }

  /** A day lies in one month, and starts a bucket. */
  lemma DayInBucket(tier: Tier, t: nat)
    requires !tier.Hourly?
    ensures Trunc(GrainOf(tier), Trunc(ByDay, t)) == Trunc(GrainOf(tier), t) <= t
  {
    MonthOfItsDay(t);
    TruncTwice(ByDay, t);
  }

  /** Something was seen on every day of the bucket. */
  ghost predicate DaysAreSeen(ss: seq<Sample>, g: Grain, b: nat, lo: int, c: nat, e: int, hi: int) {
    forall i: nat | i < |ss| && Hits(ss[i], g, b, lo, hi) :: DayIsSeen(ss, c, e, Trunc(ByDay, ss[i].at))
  }

  lemma ActiveDaysIff(ss: seq<Sample>, b: nat, lo: int, c: nat, e: int, hi: int)
    requires c <= |ss| && e <= hi && lo <= b
    ensures |ActiveDays(ss[..c], b, lo, e)| == |ActiveDays(ss, b, lo, hi)| <==>
      DaysAreSeen(ss, ByMonth, b, lo, c, e, hi)
  {
    hide Trunc;
    var part, all := ActiveDays(ss[..c], b, lo, e), ActiveDays(ss, b, lo, hi);
    forall s | s in ss[..c]
      ensures s in ss
    {
    }
    SameCard(part, all);
    if DaysAreSeen(ss, ByMonth, b, lo, c, e, hi) {
      forall day | day in all
        ensures day in part
      {
        var s :| s in ss && Hits(s, ByMonth, b, lo, hi) && Trunc(ByDay, s.at) == day;
        var i :| 0 <= i < |ss| && ss[i] == s;
        DayInBucket(Monthly, s.at);
        SeenHits(ss, Monthly, b, lo, c, e, hi, day);
      }
    }
    if part == all {
      forall i: nat | i < |ss| && Hits(ss[i], ByMonth, b, lo, hi)
        ensures DayIsSeen(ss, c, e, Trunc(ByDay, ss[i].at))
      {
        var day := Trunc(ByDay, ss[i].at);
        assert ss[i] in ss && day in all;
        DayInBucket(Monthly, ss[i].at);
        SeenHits(ss, Monthly, b, lo, c, e, hi, day);
      }
    }
  }

  lemma BucketSeenIff(ss: seq<Sample>, tier: Tier, b: nat, lo: int, c: nat, e: int, hi: int)
    requires !tier.Hourly? && c <= |ss| && e <= hi && lo <= b && BucketHas(ss, GrainOf(tier), b, lo, hi)
    ensures DaysAreSeen(ss, GrainOf(tier), b, lo, c, e, hi) ==> BucketHas(ss[..c], GrainOf(tier), b, lo, e)
    ensures tier.Daily? && BucketHas(ss[..c], GrainOf(tier), b, lo, e) ==>
      DaysAreSeen(ss, GrainOf(tier), b, lo, c, e, hi)
  {
    hide Trunc;
    var g := GrainOf(tier);
    if DaysAreSeen(ss, g, b, lo, c, e, hi) {
      var s :| s in ss && Hits(s, g, b, lo, hi);
      var i :| 0 <= i < |ss| && ss[i] == s;
      DayInBucket(tier, s.at);
      SeenHits(ss, tier, b, lo, c, e, hi, Trunc(ByDay, s.at));
    }
    if tier.Daily? && BucketHas(ss[..c], g, b, lo, e) {
      TruncOfBucket(ss[..c], b, lo, e);
      SeenHits(ss, tier, b, lo, c, e, hi, b);
    }
  }

  lemma TruncOfBucket(ss: seq<Sample>, b: nat, lo: int, hi: int)
    requires BucketHas(ss, ByDay, b, lo, hi)
    ensures Trunc(ByDay, b) == b
  {
    var s :| s in ss && Hits(s, ByDay, b, lo, hi);
    TruncTwice(ByDay, s.at);
  }

  /** The part that was seen makes the whole row if and only if no sample of the bucket adds to it. */
  lemma BucketAggIff(m: Metric, ss: seq<Sample>, tier: Tier, b: nat, c: nat, e: int, w: Window)
    requires !tier.Hourly? && NonNegative(ss) && c <= |ss| && e <= w.end && StartOf(tier, w) <= b
    requires TierHas(ss, tier, b, w)
    ensures
      var lo := StartOf(tier, w);
      BucketHas(ss[..c], GrainOf(tier), b, lo, e) && PartAgg(m, ss[..c], tier, b, lo, e) == TierAgg(m, ss, tier, b, w)
      <==> forall i: nat | i < |ss| && Hits(ss[i], GrainOf(tier), b, lo, w.end) :: AddsNothing(ss, c, e, i)
  {
    hide BucketHas;
    hide BucketSum;
    hide ActiveDays;
    hide Trunc;
    var g, lo := GrainOf(tier), StartOf(tier, w);
    SeenSumIff(ss, g, b, lo, c, e, w.end);
    BucketSeenIff(ss, tier, b, lo, c, e, w.end);
    if tier.Monthly? {
      ActiveDaysIff(ss, b, lo, c, e, w.end);
    }
    AddingNothing(ss, g, b, lo, c, e, w.end);
  }

  lemma AddingNothing(ss: seq<Sample>, g: Grain, b: nat, lo: int, c: nat, e: int, hi: int)
    ensures RestIsZero(ss, g, b, lo, c, e, hi) && DaysAreSeen(ss, g, b, lo, c, e, hi)
      <==> forall i: nat | i < |ss| && Hits(ss[i], g, b, lo, hi) :: AddsNothing(ss, c, e, i)
  {
    hide Trunc;
    hide Hits;
    forall i: nat | i < |ss| && SeenAt(ss, c, e, i)
      ensures DayIsSeen(ss, c, e, Trunc(ByDay, ss[i].at))
    {
    }
  }

  // ---------------------------------------------------------------- what the tables hold

  ghost predicate RunDelivers(run: Run, tier: Tier, o: Org, m: Metric) {
    o in LogAt(run.log, tier) && m in LogAt(run.log, tier)[o]
  }

  /** The last of the first `n` runs that got a metric of an organization into a tier. */
  ghost function LastDelivery(runs: seq<Run>, n: nat, tier: Tier, o: Org, m: Metric): (j: Option<nat>)
    requires n <= |runs|
    ensures j.Some? ==> j.value < n && RunDelivers(runs[j.value], tier, o, m)
    ensures forall i | 0 <= i < n && (j.Some? ==> j.value < i) :: !RunDelivers(runs[i], tier, o, m)
  {
    if n == 0 then None
    else if RunDelivers(runs[n - 1], tier, o, m) then Some(n - 1)
    else LastDelivery(runs, n - 1, tier, o, m)
  }

  /** How many of the samples that run had, and up to when. */
  ghost function SeenCount(runs: seq<Run>, n: nat, tier: Tier, o: Org, m: Metric): nat
    requires n <= |runs|
  {
    var j := LastDelivery(runs, n, tier, o, m);
    if j.Some? then |SamplesOf(runs[j.value].src, o, m)| else 0
  }

  ghost function SeenUntil(runs: seq<Run>, n: nat, tier: Tier, o: Org, m: Metric): nat
    requires n <= |runs|
  {
    var j := LastDelivery(runs, n, tier, o, m);
    if j.Some? then runs[j.value].end else 0
  }

  lemma DailyStartIs(end: nat)
    requires HasWindow(end)
    ensures WindowAt(end).dailyStart == (end - 7 * DAY) / DAY * DAY
  {
    hide DateOf;
    hide Ordinal;
    DayAndHour(end - 7 * DAY);
  }

  lemma StartsGrow(tier: Tier, end: nat, later: nat)
    requires HasWindow(end) && HasWindow(later) && end <= later
    ensures StartOf(tier, WindowAt(end)) <= StartOf(tier, WindowAt(later))
  {
    hide HasWindow;
    hide WindowAt;
    MonthlyStartIsMonotone(end, later);
    HourlyStartIs(end);
    HourlyStartIs(later);
    DailyStartIs(end);
    DailyStartIs(later);
    DivisionGrows(end - 7 * DAY, later - 7 * DAY);
  }

  lemma DivisionGrows(a: int, b: int)
    requires a <= b
    ensures a / DAY * DAY <= b / DAY * DAY
  {
    assert a / DAY <= b / DAY;
  }

  /** A run that has a metric in hand writes a bucket that any earlier run wrote, if it covers it. */
  lemma LaterRunWrites(tabs: seq<Tables>, runs: seq<Run>, i: nat, j: nat, tier: Tier, k: Key)
    requires History(tabs, runs) && i <= j < |runs|
    requires RunWrites(runs[i], tier, k) && RunDelivers(runs[j], tier, k.org, k.metric)
    requires HasWindow(runs[j].end) && StartOf(tier, WindowAt(runs[j].end)) <= k.bucket
    ensures RunWrites(runs[j], tier, k)
  {
    RunsInOrder(tabs, runs, i, j);
    TierRan(tabs, runs, j, tier);
    hide History;
    SamplesGrow(runs[i].src, runs[j].src, k.org, k.metric);
    WindowEnd(runs[i].end);
    WindowEnd(runs[j].end);
    hide WindowAt;
    hide SamplesOf;
    var ss := SamplesOf(runs[i].src, k.org, k.metric);
    var w := WindowAt(runs[i].end);
    var s :| s in ss && Hits(s, GrainOf(tier), k.bucket, StartOf(tier, w), w.end);
    assert s in SamplesOf(runs[j].src, k.org, k.metric);
    assert Trunc(GrainOf(tier), s.at) <= s.at;
    hide Trunc;
    assert Hits(s, GrainOf(tier), k.bucket, StartOf(tier, WindowAt(runs[j].end)), runs[j].end);
  }

  /** What was seen by that run is the beginning of what there is now. */
  lemma SeenIsPrefix(tabs: seq<Tables>, runs: seq<Run>, n: nat, tier: Tier, o: Org, m: Metric)
    requires History(tabs, runs) && n < |runs|
    ensures
      var c, ss := SeenCount(runs, n, tier, o, m), SamplesOf(runs[n].src, o, m);
      && c <= |ss| && SeenUntil(runs, n, tier, o, m) <= runs[n].end && NonNegative(ss)
      && forall j | LastDelivery(runs, n, tier, o, m) == Some(j) :: ss[..c] == SamplesOf(runs[j].src, o, m)
  {
    hide History;
    hide AllNonNegative;
    hide Grows;
    hide NonNegative;
    hide SamplesOf;
    hide RunDelivers;
    var j := LastDelivery(runs, n, tier, o, m);
    RunsAreFine(tabs, runs, n);
    SamplesAreNonNegative(runs[n].src, o, m);
    if j.Some? {
      RunsInOrder(tabs, runs, j.value, n);
      SamplesGrow(runs[j.value].src, runs[n].src, o, m);
    }
  }

  lemma NobodyWrote(runs: seq<Run>, n: nat, tier: Tier, k: Key)
    requires n <= |runs| && forall i | 0 <= i < n :: !RunDelivers(runs[i], tier, k.org, k.metric)
    ensures LastWriter(runs, n, tier, k).None?
  {
  }

  /** Of the runs that delivered, the last one decides whether a bucket it covers was written. */
  lemma WrittenByLastDelivery(tabs: seq<Tables>, runs: seq<Run>, n: nat, tier: Tier, k: Key, j: nat)
    requires History(tabs, runs) && n <= |runs| && LastDelivery(runs, n, tier, k.org, k.metric) == Some(j)
    requires HasWindow(runs[j].end) && StartOf(tier, WindowAt(runs[j].end)) <= k.bucket
    ensures LastWriter(runs, n, tier, k) == if RunWrites(runs[j], tier, k) then Some(j) else None
  {
    hide History;
    hide WindowAt;
    hide TierHas;
    var i := LastWriter(runs, n, tier, k);
    if i.Some? {
      assert RunDelivers(runs[i.value], tier, k.org, k.metric);
      LaterRunWrites(tabs, runs, i.value, j, tier, k);
    }
  }

  /** Before run `n`, a row of a bucket in its window holds what the last delivery saw of it. */
  lemma RowBefore(tabs: seq<Tables>, runs: seq<Run>, n: nat, tier: Tier, k: Key)
    requires History(tabs, runs) && n < |runs| && |tabs| == |runs| + 1 && !tier.Hourly?
    requires HasWindow(runs[n].end) && StartOf(tier, WindowAt(runs[n].end)) <= k.bucket
    requires k == KeyOf(k.org, k.bucket, k.metric)
    ensures
      var c, e := SeenCount(runs, n, tier, k.org, k.metric), SeenUntil(runs, n, tier, k.org, k.metric);
      var ss, lo, before := SamplesOf(runs[n].src, k.org, k.metric), StartOf(tier, WindowAt(runs[n].end)),
        TierRows(tabs[n], tier);
      && c <= |ss|
      && (k in before <==> BucketHas(ss[..c], GrainOf(tier), k.bucket, lo, e))
      && (k in before ==> before[k] == PartAgg(k.metric, ss[..c], tier, k.bucket, lo, e))
  {
    var j := LastDelivery(runs, n, tier, k.org, k.metric);
    SeenIsPrefix(tabs, runs, n, tier, k.org, k.metric);
    RowIsLastWritten(tabs, runs, n, tier, k);
    if j.None? {
      NobodyWrote(runs, n, tier, k);
    } else {
      TierRan(tabs, runs, j.value, tier);
      RunsInOrder(tabs, runs, j.value, n);
      StartsGrow(tier, runs[j.value].end, runs[n].end);
      WrittenByLastDelivery(tabs, runs, n, tier, k, j.value);
      hide History;
      WindowEnd(runs[j.value].end);
      hide WindowAt;
      hide BucketHas;
      hide BucketSum;
      var lo, lo' := StartOf(tier, WindowAt(runs[n].end)), StartOf(tier, WindowAt(runs[j.value].end));
      var xs := SamplesOf(runs[j.value].src, k.org, k.metric);
      LowerBoundBelowBucket(xs, GrainOf(tier), k.bucket, lo, lo', runs[j.value].end);
      SameActiveDays(xs, k.bucket, lo, lo', runs[j.value].end);
    }
  }

  lemma SameActiveDays(ss: seq<Sample>, b: nat, lo: int, lo': int, hi: int)
    requires lo <= b && lo' <= b
    ensures ActiveDays(ss, b, lo, hi) == ActiveDays(ss, b, lo', hi)
  {
    forall s | s in ss
      ensures Hits(s, ByMonth, b, lo, hi) == Hits(s, ByMonth, b, lo', hi)
    {
      assert Trunc(ByMonth, s.at) <= s.at;
    }
  }

  // ---------------------------------------------------------------- skipping an organization

  /** What processing one organization without errors would do to a tier's table at run `n`. */
  ghost predicate WouldBecome(tabs: seq<Tables>, runs: seq<Run>, n: nat, tier: Tier, o: Org, after: Rows)
    requires n < |runs| && |tabs| == |runs| + 1
  {
    && HasWindow(runs[n].end)
    && TierRun(TierRows(tabs[n], tier), after, tier, runs[n].src, map[o := ALL_METRICS], WindowAt(runs[n].end))
  }

  /** No sample from `lo` to `hi` adds to what was seen. */
  ghost predicate AllAddNothing(ss: seq<Sample>, c: nat, e: int, lo: int, hi: int) {
    forall i: nat | i < |ss| && lo <= ss[i].at <= hi :: AddsNothing(ss, c, e, i)
  }

  /** No sample of a metric in the tier's window adds to what the tier has. */
  ghost predicate NothingNew(runs: seq<Run>, n: nat, tier: Tier, o: Org, m: Metric)
    requires n < |runs| && HasWindow(runs[n].end)
  {
    AllAddNothing(SamplesOf(runs[n].src, o, m), SeenCount(runs, n, tier, o, m), SeenUntil(runs, n, tier, o, m),
                  StartOf(tier, WindowAt(runs[n].end)), runs[n].end)
  }

  /** The days and months of one organization are as processing it would leave them if and only if, in
      each metric, every sample in the window was seen by the last run that delivered the metric, or
      is worth nothing on a day of which that run saw something. */
  lemma SkippingIsRightIff(tabs: seq<Tables>, runs: seq<Run>, n: nat, tier: Tier, o: Org, after: Rows)
    requires History(tabs, runs) && n < |runs| && |tabs| == |runs| + 1 && !tier.Hourly?
    requires WouldBecome(tabs, runs, n, tier, o, after)
    ensures after == TierRows(tabs[n], tier) <==> forall m :: NothingNew(runs, n, tier, o, m)
  {
    assert HasWindow(runs[n].end);
    hide History;
    hide WouldBecome;
    hide NothingNew;
    var before := TierRows(tabs[n], tier);
    if forall m :: NothingNew(runs, n, tier, o, m) {
      forall k
        ensures SameAt(after, before, k)
      {
        RowStays(tabs, runs, n, tier, o, k, after);
      }
      SameEverywhere(after, before);
    }
    if after == before {
      forall m
        ensures NothingNew(runs, n, tier, o, m)
      {
        SamplesAreSeen(tabs, runs, n, tier, o, after, m);
      }
    }
  }

  lemma RowStays(tabs: seq<Tables>, runs: seq<Run>, n: nat, tier: Tier, o: Org, k: Key, after: Rows)
    requires History(tabs, runs) && n < |runs| && |tabs| == |runs| + 1 && !tier.Hourly?
    requires WouldBecome(tabs, runs, n, tier, o, after) && NothingNew(runs, n, tier, o, k.metric)
    ensures SameAt(after, TierRows(tabs[n], tier), k)
  {
    hide History;
    hide AddsNothing;
    hide WrittenAt;
    hide TierHas;
    WindowEnd(runs[n].end);
    hide WindowAt;
    if Writes(k, runs[n].src, map[o := ALL_METRICS], tier, WindowAt(runs[n].end)) {
      RowIsRight(tabs, runs, n, tier, k, after);
    }
  }

  lemma RowIsRight(tabs: seq<Tables>, runs: seq<Run>, n: nat, tier: Tier, k: Key, after: Rows)
    requires History(tabs, runs) && n < |runs| && |tabs| == |runs| + 1 && !tier.Hourly?
    requires WouldBecome(tabs, runs, n, tier, k.org, after)
    requires Writes(k, runs[n].src, map[k.org := ALL_METRICS], tier, WindowAt(runs[n].end))
    ensures
      SameAt(after, TierRows(tabs[n], tier), k) <==>
      var ss, w := SamplesOf(runs[n].src, k.org, k.metric), WindowAt(runs[n].end);
      forall i: nat | i < |ss| && Hits(ss[i], GrainOf(tier), k.bucket, StartOf(tier, w), w.end) ::
        AddsNothing(ss, SeenCount(runs, n, tier, k.org, k.metric), SeenUntil(runs, n, tier, k.org, k.metric), i)
  {
    var m, ss := k.metric, SamplesOf(runs[n].src, k.org, k.metric);
    BucketInWindow(ss, tier, k.bucket, runs[n].end);
    RowBefore(tabs, runs, n, tier, k);
    SeenIsPrefix(tabs, runs, n, tier, k.org, m);
    WindowEnd(runs[n].end);
    hide History;
    hide WindowAt;
    hide BucketHas;
    hide BucketSum;
    hide Hits;
    BucketAggIff(m, ss, tier, k.bucket, SeenCount(runs, n, tier, k.org, m), SeenUntil(runs, n, tier, k.org, m),
                 WindowAt(runs[n].end));
  }

  lemma SamplesAreSeen(tabs: seq<Tables>, runs: seq<Run>, n: nat, tier: Tier, o: Org, after: Rows, m: Metric)
    requires History(tabs, runs) && n < |runs| && |tabs| == |runs| + 1 && !tier.Hourly?
    requires WouldBecome(tabs, runs, n, tier, o, after) && after == TierRows(tabs[n], tier)
    ensures NothingNew(runs, n, tier, o, m)
  {
    var ss, w := SamplesOf(runs[n].src, o, m), WindowAt(runs[n].end);
    forall i: nat | i < |ss| && StartOf(tier, w) <= ss[i].at <= runs[n].end
      ensures AddsNothing(ss, SeenCount(runs, n, tier, o, m), SeenUntil(runs, n, tier, o, m), i)
    {
      var k := KeyOf(o, Trunc(GrainOf(tier), ss[i].at), m);
      WindowEnd(runs[n].end);
      assert Hits(ss[i], GrainOf(tier), k.bucket, StartOf(tier, w), w.end);
      EveryMetric(m);
      assert Writes(k, runs[n].src, map[o := ALL_METRICS], tier, w);
      RowIsRight(tabs, runs, n, tier, k, after);
    }
  }

  lemma EveryMetric(m: Metric)
    ensures m in ALL_METRICS
  {
  }

  /** A run that processed one organization without errors. */
  ghost predicate WouldBecomeAll(tabs: seq<Tables>, runs: seq<Run>, n: nat, o: Org, after: Tables)
    requires n < |runs| && |tabs| == |runs| + 1
  {
    && WouldBecome(tabs, runs, n, Hourly, o, after.hourly)
    && WouldBecome(tabs, runs, n, Daily, o, after.daily)
    && WouldBecome(tabs, runs, n, Monthly, o, after.monthly)
  }

  /** The organization has no sample in the tier's window. */
  ghost predicate IsSilent(src: Sources, o: Org, lo: int, hi: int) {
    forall m, s | s in SamplesOf(src, o, m) :: !(lo <= s.at <= hi)
  }

  lemma SilentTierStays(tabs: seq<Tables>, runs: seq<Run>, n: nat, tier: Tier, o: Org, after: Rows)
    requires n < |runs| && |tabs| == |runs| + 1 && WouldBecome(tabs, runs, n, tier, o, after)
    requires IsSilent(runs[n].src, o, StartOf(tier, WindowAt(runs[n].end)), runs[n].end)
    ensures after == TierRows(tabs[n], tier)
  {
    WindowEnd(runs[n].end);
    hide WindowAt;
    hide SamplesOf;
    hide WrittenAt;
    forall k
      ensures SameAt(after, TierRows(tabs[n], tier), k)
    {
    }
    SameEverywhere(after, TierRows(tabs[n], tier));
  }

  lemma SilentSince(src: Sources, o: Org, lo: int, lo': int, hi: int)
    requires IsSilent(src, o, lo, hi) && lo <= lo'
    ensures IsSilent(src, o, lo', hi)
  {
  }

  /** Skipping an organization without a sample since `dailyStart` leaves all three tables as they
      would be if and only if nothing in the monthly window adds to what the last delivery saw. */
  lemma SkippingIsHarmlessIff(tabs: seq<Tables>, runs: seq<Run>, n: nat, o: Org, after: Tables)
    requires History(tabs, runs) && n < |runs| && |tabs| == |runs| + 1
    requires HasWindow(runs[n].end) && Dormant(runs[n].src, o, WindowAt(runs[n].end))
    requires WouldBecomeAll(tabs, runs, n, o, after)
    ensures after == tabs[n] <==> forall m :: NothingNew(runs, n, Monthly, o, m)
  {
    WindowIsOrdered(runs[n].end);
    assert IsSilent(runs[n].src, o, WindowAt(runs[n].end).dailyStart, runs[n].end);
    hide History;
    hide WindowAt;
    hide NothingNew;
    hide WouldBecome;
    hide Dormant;
    var w := WindowAt(runs[n].end);
    SilentSince(runs[n].src, o, w.dailyStart, w.hourlyStart, runs[n].end);
    SilentTierStays(tabs, runs, n, Hourly, o, after.hourly);
    SilentTierStays(tabs, runs, n, Daily, o, after.daily);
    SkippingIsRightIff(tabs, runs, n, Monthly, o, after.monthly);
  }

  /** A run that got everything of the organization written after its last row has seen it all. */
  lemma CaughtUpSawAll(tabs: seq<Tables>, runs: seq<Run>, j: nat, n: nat, o: Org, m: Metric)
    requires History(tabs, runs) && |tabs| == |runs| + 1 && j < n < |runs| && HasWindow(runs[n].end)
    requires CaughtUp(runs[j], runs[n].src, o)
    ensures NothingNew(runs, n, Monthly, o, m)
  {
    EveryMetric(m);
    var i := LastDelivery(runs, n, Monthly, o, m);
    assert RunDelivers(runs[j], Monthly, o, m);
    SourcesSettled(tabs, runs, j, i.value, n, o, m);
    hide History;
    hide WindowAt;
    hide SamplesOf;
    var ss := SamplesOf(runs[n].src, o, m);
    forall k: nat | k < |ss|
      ensures SeenAt(ss, SeenCount(runs, n, Monthly, o, m), SeenUntil(runs, n, Monthly, o, m), k)
    {
      assert ss[k] in ss;
    }
  }

  /** So the organization filter loses nothing of an organization that has no source row since
      `dailyStart` and that an earlier run caught up with. */
  lemma SkippingIsHarmless(tabs: seq<Tables>, runs: seq<Run>, j: nat, n: nat, o: Org, after: Tables)
    requires History(tabs, runs) && |tabs| == |runs| + 1 && j < n < |runs|
    requires CaughtUp(runs[j], runs[n].src, o)
    requires HasWindow(runs[n].end) && Dormant(runs[n].src, o, WindowAt(runs[n].end))
    requires WouldBecomeAll(tabs, runs, n, o, after)
    ensures after == tabs[n]
  {
    forall m
      ensures NothingNew(runs, n, Monthly, o, m)
    {
      CaughtUpSawAll(tabs, runs, j, n, o, m);
    }
    hide NothingNew;
    SkippingIsHarmlessIff(tabs, runs, n, o, after);
  }

  /** No earlier run has got anything of the organization written. */
  ghost predicate NeverDelivered(runs: seq<Run>, n: nat, o: Org)
    requires n <= |runs|
  {
    forall i, tier | 0 <= i < n :: o !in LogAt(runs[i].log, tier)
  }

  lemma NeverDeliveredIsUnseen(runs: seq<Run>, n: nat, tier: Tier, o: Org, m: Metric)
    requires n <= |runs| && NeverDelivered(runs, n, o)
    ensures SeenCount(runs, n, tier, o, m) == 0
  {
    assert LastDelivery(runs, n, tier, o, m).None?;
  }

  /** What nobody saw adds something, so nothing new means nothing there. */
  lemma UnseenIsNew(ss: seq<Sample>, c: nat, e: int, lo: int, hi: int)
    requires c == 0
    ensures AllAddNothing(ss, c, e, lo, hi) <==> forall s | s in ss :: !(lo <= s.at <= hi)
  {
    hide Trunc;
    assert forall i: nat | i < |ss| :: !AddsNothing(ss, c, e, i);
    hide AddsNothing;
  }

  lemma NeverDeliveredIsNew(runs: seq<Run>, n: nat, tier: Tier, o: Org, m: Metric)
    requires n < |runs| && HasWindow(runs[n].end) && NeverDelivered(runs, n, o)
    ensures NothingNew(runs, n, tier, o, m) <==>
            forall s | s in SamplesOf(runs[n].src, o, m) ::
              !(StartOf(tier, WindowAt(runs[n].end)) <= s.at <= runs[n].end)
  {
    NeverDeliveredIsUnseen(runs, n, tier, o, m);
    hide WindowAt;
    hide HasWindow;
    hide SamplesOf;
    hide SeenCount;
    hide SeenUntil;
    hide NeverDelivered;
    hide AllAddNothing;
    hide StartOf;
    UnseenIsNew(SamplesOf(runs[n].src, o, m), SeenCount(runs, n, tier, o, m), SeenUntil(runs, n, tier, o, m),
                StartOf(tier, WindowAt(runs[n].end)), runs[n].end);
  }

  /** An organization that no run has delivered, active or not, is skipped without loss if and only if
      it has no source row at all from the start of the previous month to the end date. */
  lemma SkippingUnwrittenIff(tabs: seq<Tables>, runs: seq<Run>, n: nat, o: Org, after: Tables)
    requires History(tabs, runs) && n < |runs| && |tabs| == |runs| + 1 && HasWindow(runs[n].end)
    requires NeverDelivered(runs, n, o) && WouldBecomeAll(tabs, runs, n, o, after)
    ensures after == tabs[n] <==> IsSilent(runs[n].src, o, WindowAt(runs[n].end).monthlyStart, runs[n].end)
  {
    WindowIsOrdered(runs[n].end);
    hide History;
    hide WindowAt;
    hide SamplesOf;
    hide WouldBecome;
    hide NeverDelivered;
    forall m
      ensures
        NothingNew(runs, n, Monthly, o, m) <==>
        forall s | s in SamplesOf(runs[n].src, o, m) :: !(WindowAt(runs[n].end).monthlyStart <= s.at <= runs[n].end)
    {
      NeverDeliveredIsNew(runs, n, Monthly, o, m);
    }
    hide NothingNew;
    var w := WindowAt(runs[n].end);
    SkippingIsRightIff(tabs, runs, n, Monthly, o, after.monthly);
    if IsSilent(runs[n].src, o, w.monthlyStart, runs[n].end) {
      SilentSince(runs[n].src, o, w.monthlyStart, w.dailyStart, runs[n].end);
      SilentSince(runs[n].src, o, w.monthlyStart, w.hourlyStart, runs[n].end);
      SilentTierStays(tabs, runs, n, Hourly, o, after.hourly);
      SilentTierStays(tabs, runs, n, Daily, o, after.daily);
    }
  }

  /** The filter looks at executions only. An organization with nothing but usage rows is never active,
      so no run delivers it, and every usage row in the monthly window is lost. */
  lemma SkippingLosesUsage(tabs: seq<Tables>, runs: seq<Run>, n: nat, o: Org, usage: seq<UsageRow>, i: nat,
                           after: Tables)
    requires History(tabs, runs) && n < |runs| && |tabs| == |runs| + 1 && HasWindow(runs[n].end)
    requires NeverDelivered(runs, n, o) && WouldBecomeAll(tabs, runs, n, o, after)
    requires o in runs[n].src && runs[n].src[o] == OrgSources(map[], usage)
    requires i < |usage| && WindowAt(runs[n].end).monthlyStart <= usage[i].at <= runs[n].end
    ensures !IsActive(runs[n].src, o, WindowAt(runs[n].end))
    ensures after != tabs[n]
  {
    hide History;
    hide WindowAt;
    hide WouldBecome;
    SkippingUnwrittenIff(tabs, runs, n, o, after);
    var ss := SamplesOf(runs[n].src, o, LlmCalls);
    assert ss == FieldSamples(Calls, usage) && ss[i] in ss && ss[i].at == usage[i].at;
    assert SamplesOf(runs[n].src, o, PromptExecutions) == [];
  }

  // ---------------------------------------------------------------- hours

  /** What the samples of a bucket are worth that were not seen. */
  function UnseenSum(ss: seq<Sample>, g: Grain, b: nat, lo: int, c: nat, e: int, hi: int): real {
    if ss == [] then 0.0 else
      var n := |ss| - 1;
      UnseenSum(ss[..n], g, b, lo, c, e, hi) +
      if Hits(ss[n], g, b, lo, hi) && !(n < c && ss[n].at <= e) then Or0(ss[n].amount) else 0.0
  }

  /** A bucket is what was seen of it and the rest. */
  lemma {:induction false} SeenAndUnseen(ss: seq<Sample>, g: Grain, b: nat, lo: int, c: nat, e: int, hi: int)
    requires c <= |ss| && e <= hi
    ensures BucketSum(ss, g, b, lo, hi) == BucketSum(ss[..c], g, b, lo, e) + UnseenSum(ss, g, b, lo, c, e, hi)
    decreases |ss|
  {
    hide Trunc;
    if ss == [] {
      assert ss[..c] == ss;
    } else {
      var n := |ss| - 1;
      if c <= n {
        SeenAndUnseen(ss[..n], g, b, lo, c, e, hi);
        assert ss[..n][..c] == ss[..c];
      } else {
        SeenAndUnseen(ss[..n], g, b, lo, n, e, hi);
        assert ss[..n][..n] == ss[..n] && ss[..c] == ss;
        SameUnseen(ss[..n], g, b, lo, n, c, e, hi);
      }
    }
  }

  lemma {:induction false} SameUnseen(ss: seq<Sample>, g: Grain, b: nat, lo: int, c: nat, d: nat, e: int, hi: int)
    requires |ss| <= c <= d
    ensures UnseenSum(ss, g, b, lo, c, e, hi) == UnseenSum(ss, g, b, lo, d, e, hi)
  {
    if ss != [] {
      SameUnseen(ss[..|ss| - 1], g, b, lo, c, d, e, hi);
    }
  }

  /** Of an hour, what a run saw in front of the window of run `n`. */
  ghost function Dropped(runs: seq<Run>, j: nat, n: nat, k: Key): real
    requires j < |runs| && n < |runs| && HasWindow(runs[j].end) && HasWindow(runs[n].end)
  {
    var w, v := WindowAt(runs[j].end), WindowAt(runs[n].end);
    BucketSum(SamplesOf(runs[j].src, k.org, k.metric), ByHour, k.bucket, w.hourlyStart,
              if runs[j].end < v.hourlyStart then runs[j].end else v.hourlyStart - 1)
  }

  /** Of an hour, what is in the window of run `n` and run `j` did not see. */
  ghost function Arrived(runs: seq<Run>, j: nat, n: nat, k: Key): real
    requires j < |runs| && n < |runs| && HasWindow(runs[n].end)
  {
    UnseenSum(SamplesOf(runs[n].src, k.org, k.metric), ByHour, k.bucket, WindowAt(runs[n].end).hourlyStart,
              |SamplesOf(runs[j].src, k.org, k.metric)|, runs[j].end, runs[n].end)
  }

  lemma EmptyRange(ss: seq<Sample>, g: Grain, b: nat, lo: int, hi: int)
    requires hi < lo
    ensures BucketSum(ss, g, b, lo, hi) == 0.0
  {
    NoHitsNoSum(ss, g, b, lo, hi);
  }

  /** What run `j` wrote of an hour is what run `n` would write, less what has arrived, and what has
      dropped out of the window on top. */
  lemma HourParts(xs: seq<Sample>, ss: seq<Sample>, b: nat, e: int, lo: int, lo': int, hi: int)
    requires xs <= ss && e <= hi && lo' <= lo
    ensures BucketSum(ss, ByHour, b, lo, hi) ==
            BucketSum(xs, ByHour, b, lo', e) - BucketSum(xs, ByHour, b, lo', if e < lo then e else lo - 1) +
            UnseenSum(ss, ByHour, b, lo, |xs|, e, hi)
  {
    hide BucketSum;
    hide UnseenSum;
    assert ss[..|xs|] == xs;
    SeenAndUnseen(ss, ByHour, b, lo, |xs|, e, hi);
    if e < lo {
      EmptyRange(xs, ByHour, b, lo, e);
    } else {
      WindowSplits(xs, ByHour, b, lo', lo, e);
    }
  }

  lemma HourMoves(tabs: seq<Tables>, runs: seq<Run>, j: nat, n: nat, k: Key)
    requires History(tabs, runs) && j <= n < |runs| && HasWindow(runs[j].end) && HasWindow(runs[n].end)
    ensures
      WrittenAt(k, runs[n].src, Hourly, WindowAt(runs[n].end)).value ==
      WrittenAt(k, runs[j].src, Hourly, WindowAt(runs[j].end)).value - Dropped(runs, j, n, k) + Arrived(runs, j, n, k)
  {
    hide History;
    hide WindowAt;
    hide HasWindow;
    hide SamplesOf;
    hide BucketSum;
    hide UnseenSum;
    hide Grows;
    hide AllNonNegative;
    hide NonNegative;
    RunsInOrder(tabs, runs, j, n);
    RunsAreFine(tabs, runs, n);
    SamplesGrow(runs[j].src, runs[n].src, k.org, k.metric);
    HourlyStartIs(runs[j].end);
    HourlyStartIs(runs[n].end);
    WindowEnd(runs[j].end);
    WindowEnd(runs[n].end);
    HourParts(SamplesOf(runs[j].src, k.org, k.metric), SamplesOf(runs[n].src, k.org, k.metric), k.bucket, runs[j].end,
              WindowAt(runs[n].end).hourlyStart, WindowAt(runs[j].end).hourlyStart, runs[n].end);
  }

  /** Some run wrote the hour, and since the last one as much has arrived as has dropped out. */
  ghost predicate HourBalances(runs: seq<Run>, n: nat, k: Key)
    requires n < |runs| && HasWindow(runs[n].end)
  {
    var j := LastWriter(runs, n, Hourly, k);
    j.Some? && Dropped(runs, j.value, n, k) == Arrived(runs, j.value, n, k)
  }

  ghost predicate HoursBalance(runs: seq<Run>, n: nat, o: Org)
    requires n < |runs| && HasWindow(runs[n].end)
  {
    forall k | Writes(k, runs[n].src, map[o := ALL_METRICS], Hourly, WindowAt(runs[n].end)) :: HourBalances(runs, n, k)
  }

  lemma HourIsRightNow(tabs: seq<Tables>, runs: seq<Run>, n: nat, k: Key, after: Rows)
    requires History(tabs, runs) && n < |runs| && |tabs| == |runs| + 1
    requires WouldBecome(tabs, runs, n, Hourly, k.org, after)
    requires Writes(k, runs[n].src, map[k.org := ALL_METRICS], Hourly, WindowAt(runs[n].end))
    ensures SameAt(after, tabs[n].hourly, k) <==> HourBalances(runs, n, k)
  {
    RowIsLastWritten(tabs, runs, n, Hourly, k);
    var j := LastWriter(runs, n, Hourly, k);
    if j.Some? {
      HourMoves(tabs, runs, j.value, n, k);
    }
    hide History;
    hide WindowAt;
    hide Dropped;
    hide Arrived;
    hide SamplesOf;
    hide BucketSum;
    hide TierHas;
  }

  /** The hours of an organization are as processing it would leave them if and only if every hour with
      a sample in the window balances. */
  lemma SkippingHoursIsRightIff(tabs: seq<Tables>, runs: seq<Run>, n: nat, o: Org, after: Rows)
    requires History(tabs, runs) && n < |runs| && |tabs| == |runs| + 1
    requires WouldBecome(tabs, runs, n, Hourly, o, after)
    ensures after == tabs[n].hourly <==> HoursBalance(runs, n, o)
  {
    hide History;
    hide WindowAt;
    hide HourBalances;
    hide WrittenAt;
    hide TierHas;
    forall k
      ensures SameAt(after, tabs[n].hourly, k) <==>
              (Writes(k, runs[n].src, map[o := ALL_METRICS], Hourly, WindowAt(runs[n].end)) ==>
                 HourBalances(runs, n, k))
    {
      if Writes(k, runs[n].src, map[o := ALL_METRICS], Hourly, WindowAt(runs[n].end)) {
        HourIsRightNow(tabs, runs, n, k, after);
      }
    }
    if HoursBalance(runs, n, o) {
      SameEverywhere(after, tabs[n].hourly);
    }
  }

  /** So, for any organization after any history, skipping it leaves all three tables as they would be if
      and only if its hours balance and nothing is new to its days and months. */
  lemma SkippingAllIsRightIff(tabs: seq<Tables>, runs: seq<Run>, n: nat, o: Org, after: Tables)
    requires History(tabs, runs) && n < |runs| && |tabs| == |runs| + 1 && HasWindow(runs[n].end)
    requires WouldBecomeAll(tabs, runs, n, o, after)
    ensures after == tabs[n] <==>
            && HoursBalance(runs, n, o)
            && (forall m :: NothingNew(runs, n, Daily, o, m)) && (forall m :: NothingNew(runs, n, Monthly, o, m))
  {
    hide History;
    hide WouldBecome;
    hide HoursBalance;
    hide NothingNew;
    SkippingHoursIsRightIff(tabs, runs, n, o, after.hourly);
    SkippingIsRightIff(tabs, runs, n, Daily, o, after.daily);
    SkippingIsRightIff(tabs, runs, n, Monthly, o, after.monthly);
  }
}
