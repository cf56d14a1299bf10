/** What the event tables hold over any history of aggregation runs, with any failures. */
module AggregationHistory {
  import opened Calendar
  import opened MetricQueries
  import opened MetricRollup
  import opened MetricAggregation
  import opened Options

  /** A run: its end date, the source rows it saw and what it got written. */
  datatype Run = Run(end: nat, src: Sources, log: Log)

  function TierRows(t: Tables, tier: Tier): Rows {
    match tier case Hourly => t.hourly case Daily => t.daily case Monthly => t.monthly
  }

  function LogAt(log: Log, tier: Tier): map<Org, set<Metric>> {
    match tier case Hourly => log.hourly case Daily => log.daily case Monthly => log.monthly
  }

  /** Sources are append-only. */
  ghost predicate Grows(s: Sources, t: Sources) {
    forall o, m :: SamplesOf(s, o, m) <= SamplesOf(t, o, m)
  }

  ghost predicate AllNonNegative(s: Sources) {
    forall o, m :: NonNegative(SamplesOf(s, o, m))
  }

  /** Runs in order of their end dates, on append-only, non-negative sources, from empty tables. */
  ghost predicate History(tabs: seq<Tables>, runs: seq<Run>) {
    && |tabs| == |runs| + 1 && tabs[0] == Tables(map[], map[], map[])
    && (forall i | 0 <= i < |runs| ::
          && HasWindow(runs[i].end) && AllNonNegative(runs[i].src)
          && Ran(tabs[i], tabs[i + 1], runs[i].src, runs[i].log, WindowAt(runs[i].end)))
    && (forall i, j | 0 <= i < j < |runs| :: runs[i].end <= runs[j].end && Grows(runs[i].src, runs[j].src))
  }

  /** What the sources say about a bucket, up to `end`. */
  function Total(src: Sources, k: Key, tier: Tier, end: nat): real {
    BucketSum(SamplesOf(src, k.org, k.metric), GrainOf(tier), k.bucket, 0, end)
  }

  lemma LengthOf(tabs: seq<Tables>, runs: seq<Run>)
    requires History(tabs, runs)
    ensures |tabs| == |runs| + 1 && forall tier, k :: k !in TierRows(tabs[0], tier)
  {
  }

  lemma TierRan(tabs: seq<Tables>, runs: seq<Run>, i: nat, tier: Tier)
    requires History(tabs, runs) && i < |runs|
    ensures HasWindow(runs[i].end) && AllNonNegative(runs[i].src)
    ensures
      TierRun(TierRows(tabs[i], tier), TierRows(tabs[i + 1], tier), tier, runs[i].src, LogAt(runs[i].log, tier),
              WindowAt(runs[i].end))
  {
  }

  /** What a run does to one row. */
  lemma RowAfterRun(tabs: seq<Tables>, runs: seq<Run>, i: nat, tier: Tier, k: Key)
    requires History(tabs, runs) && i < |runs|
    ensures |tabs| == |runs| + 1 && HasWindow(runs[i].end) && AllNonNegative(runs[i].src)
    ensures
      var w, after := WindowAt(runs[i].end), TierRows(tabs[i + 1], tier);
      if Writes(k, runs[i].src, LogAt(runs[i].log, tier), tier, w)
      then k in after && after[k] == WrittenAt(k, runs[i].src, tier, w)
      else SameAt(TierRows(tabs[i], tier), after, k)
  {
    hide WindowAt;
    hide Writes;
    hide WrittenAt;
    TierRan(tabs, runs, i, tier);
  }

  lemma RunsInOrder(tabs: seq<Tables>, runs: seq<Run>, i: nat, j: nat)
    requires History(tabs, runs) && i <= j < |runs|
    ensures runs[i].end <= runs[j].end && Grows(runs[i].src, runs[j].src)
  {
  }

  // ---------------------------------------------------------------- the last run that wrote a row

  ghost predicate RunWrites(run: Run, tier: Tier, k: Key) {
    HasWindow(run.end) && Writes(k, run.src, LogAt(run.log, tier), tier, WindowAt(run.end))
  }

  /** The last of the first `n` runs that wrote row `k`. */
  ghost function LastWriter(runs: seq<Run>, n: nat, tier: Tier, k: Key): (j: Option<nat>)
    requires n <= |runs|
    ensures j.Some? ==> j.value < n && RunWrites(runs[j.value], tier, k)
    ensures forall i | 0 <= i < n && (j.Some? ==> j.value < i) :: !RunWrites(runs[i], tier, k)
  {
    if n == 0 then None
    else if RunWrites(runs[n - 1], tier, k) then Some(n - 1)
    else LastWriter(runs, n - 1, tier, k)
  }

  /** A row is there if and only if a run wrote it, and then it is what the last one wrote. */
  lemma {:induction false} RowIsLastWritten(tabs: seq<Tables>, runs: seq<Run>, n: nat, tier: Tier, k: Key)
    requires History(tabs, runs) && n <= |runs| && |tabs| == |runs| + 1
    ensures k in TierRows(tabs[n], tier) <==> LastWriter(runs, n, tier, k).Some?
    ensures forall j | LastWriter(runs, n, tier, k) == Some(j) ::
      j < |runs| && HasWindow(runs[j].end)
      && TierRows(tabs[n], tier)[k] == WrittenAt(k, runs[j].src, tier, WindowAt(runs[j].end))
  {
    hide History;
    hide WindowAt;
    hide Writes;
    hide WrittenAt;
    LengthOf(tabs, runs);
    if n > 0 {
      RowIsLastWritten(tabs, runs, n - 1, tier, k);
      RowAfterRun(tabs, runs, n - 1, tier, k);
    }
  }

  // ---------------------------------------------------------------- rows against their sources

  lemma WrittenIsBounded(k: Key, src: Sources, tier: Tier, end: nat)
    requires HasWindow(end) && AllNonNegative(src)
    ensures WrittenAt(k, src, tier, WindowAt(end)).value <= Total(src, k, tier, end)
  {
    WindowIsOrdered(end);
    var ss := SamplesOf(src, k.org, k.metric);
    assert NonNegative(ss);
    hide SamplesOf;
    BucketGrows(ss, ss, GrainOf(tier), k.bucket, StartOf(tier, WindowAt(end)), 0, end, end);
  }

  lemma TotalsGrow(s: Sources, t: Sources, k: Key, tier: Tier, end: nat, later: nat)
    requires Grows(s, t) && AllNonNegative(t) && end <= later
    ensures Total(s, k, tier, end) <= Total(t, k, tier, later)
  {
    var xs, ys := SamplesOf(s, k.org, k.metric), SamplesOf(t, k.org, k.metric);
    assert NonNegative(ys) && xs <= ys;
    hide SamplesOf;
    BucketGrows(xs, ys, GrainOf(tier), k.bucket, 0, 0, end, later);
  }

  /** No row ever holds more than its sources. */
  lemma {:induction false} RowsAreBounded(tabs: seq<Tables>, runs: seq<Run>, i: nat, tier: Tier, k: Key)
    requires History(tabs, runs) && i < |runs| && |tabs| == |runs| + 1 && k in TierRows(tabs[i + 1], tier)
    ensures TierRows(tabs[i + 1], tier)[k].value <= Total(runs[i].src, k, tier, runs[i].end)
  {
    hide History;
    hide WindowAt;
    hide Writes;
    hide WrittenAt;
    hide Total;
    hide Grows;
    hide AllNonNegative;
    LengthOf(tabs, runs);
    RowAfterRun(tabs, runs, i, tier, k);
    WrittenIsBounded(k, runs[i].src, tier, runs[i].end);
    if i > 0 && !Writes(k, runs[i].src, LogAt(runs[i].log, tier), tier, WindowAt(runs[i].end)) {
      RowsAreBounded(tabs, runs, i - 1, tier, k);
      RunsInOrder(tabs, runs, i - 1, i);
      TotalsGrow(runs[i - 1].src, runs[i].src, k, tier, runs[i - 1].end, runs[i].end);
    }
  }

  /** Days and months that have a row in the window start in it. */
  lemma BucketInWindow(ss: seq<Sample>, tier: Tier, b: nat, end: nat)
    requires HasWindow(end) && TierHas(ss, tier, b, WindowAt(end)) && !tier.Hourly?
    ensures StartOf(tier, WindowAt(end)) <= b
  {
    hide WindowAt;
    var w := WindowAt(end);
    WindowIsOrdered(end);
    var s :| s in ss && Hits(s, GrainOf(tier), b, StartOf(tier, w), w.end);
    WindowEnd(end);
    if tier.Daily? {
      DayNotBefore(s.at, w.dailyStart);
    } else {
      MonthNotBefore(end, s.at);
    }
  }

  lemma WindowEnd(end: nat)
    requires HasWindow(end)
    ensures WindowAt(end).end == end
  {
  }

  /** A bucket that starts in the tier's window is written with its full total. */
  lemma WrittenIsExact(k: Key, src: Sources, tier: Tier, end: nat)
    requires HasWindow(end) && StartOf(tier, WindowAt(end)) <= k.bucket
    ensures WrittenAt(k, src, tier, WindowAt(end)).value == Total(src, k, tier, end)
    ensures TierHas(SamplesOf(src, k.org, k.metric), tier, k.bucket, WindowAt(end))
      <==> BucketHas(SamplesOf(src, k.org, k.metric), GrainOf(tier), k.bucket, 0, end)
  {
    hide WindowAt;
    hide BucketSum;
    hide SamplesOf;
    WindowEnd(end);
    LowerBoundBelowBucket(SamplesOf(src, k.org, k.metric), GrainOf(tier), k.bucket, StartOf(tier, WindowAt(end)), 0,
                          end);
  }

  /** After a run that got a metric of an organization written, every hour, day and month that
      starts in the run's window holds the sources' total up to the end date. */
  lemma ExactAfterRun(tabs: seq<Tables>, runs: seq<Run>, i: nat, tier: Tier, k: Key)
    requires History(tabs, runs) && i < |runs| && |tabs| == |runs| + 1
    requires k == KeyOf(k.org, k.bucket, k.metric)
    requires k.org in LogAt(runs[i].log, tier) && k.metric in LogAt(runs[i].log, tier)[k.org]
    requires HasWindow(runs[i].end) && StartOf(tier, WindowAt(runs[i].end)) <= k.bucket
    requires BucketHas(SamplesOf(runs[i].src, k.org, k.metric), GrainOf(tier), k.bucket, 0, runs[i].end)
    ensures k in TierRows(tabs[i + 1], tier)
    ensures TierRows(tabs[i + 1], tier)[k].value == Total(runs[i].src, k, tier, runs[i].end)
    ensures TierRows(tabs[i + 1], tier)[k].kind == KindOf(k.metric)
  {
    hide History;
    hide WindowAt;
    hide BucketHas;
    hide SamplesOf;
    RowAfterRun(tabs, runs, i, tier, k);
    WrittenIsExact(k, runs[i].src, tier, runs[i].end);
  }

  /** The hour the rolling window cuts in two. */
  predicate Straddled(b: nat, w: Window) { b < w.hourlyStart < b + HOUR }

  lemma HourInWindow(ss: seq<Sample>, b: nat, w: Window)
    requires TierHas(ss, Hourly, b, w)
    ensures w.hourlyStart <= b || Straddled(b, w)
  {
    var s :| s in ss && Hits(s, ByHour, b, w.hourlyStart, w.end);
    DayAndHour(s.at);
  }

  /** Outside the straddled hour, what is written is the full total. */
  lemma WrittenIsTotal(k: Key, src: Sources, wrote: map<Org, set<Metric>>, tier: Tier, end: nat)
    requires HasWindow(end) && Writes(k, src, wrote, tier, WindowAt(end))
    requires tier.Hourly? ==> !Straddled(k.bucket, WindowAt(end))
    ensures WrittenAt(k, src, tier, WindowAt(end)).value == Total(src, k, tier, end)
  {
    hide WindowAt;
    hide SamplesOf;
    hide TierHas;
    hide WrittenAt;
    hide Total;
    if tier.Hourly? {
      HourInWindow(SamplesOf(src, k.org, k.metric), k.bucket, WindowAt(end));
    } else {
      BucketInWindow(SamplesOf(src, k.org, k.metric), tier, k.bucket, end);
    }
    WrittenIsExact(k, src, tier, end);
  }

  /** Whatever fails, no run makes a row smaller, except the row of the straddled hour. */
  lemma NeverDecreases(tabs: seq<Tables>, runs: seq<Run>, i: nat, tier: Tier, k: Key)
    requires History(tabs, runs) && i < |runs| && |tabs| == |runs| + 1 && k in TierRows(tabs[i], tier)
    requires tier.Hourly? ==> HasWindow(runs[i].end) && !Straddled(k.bucket, WindowAt(runs[i].end))
    ensures k in TierRows(tabs[i + 1], tier)
    ensures TierRows(tabs[i], tier)[k].value <= TierRows(tabs[i + 1], tier)[k].value
  {
    hide History;
    hide WindowAt;
    hide Writes;
    hide WrittenAt;
    hide Total;
    hide Grows;
    hide AllNonNegative;
    hide Straddled;
    LengthOf(tabs, runs);
    RowAfterRun(tabs, runs, i, tier, k);
    if Writes(k, runs[i].src, LogAt(runs[i].log, tier), tier, WindowAt(runs[i].end)) {
      WrittenIsTotal(k, runs[i].src, LogAt(runs[i].log, tier), tier, runs[i].end);
      RowsAreBounded(tabs, runs, i - 1, tier, k);
      RunsInOrder(tabs, runs, i - 1, i);
      TotalsGrow(runs[i - 1].src, runs[i].src, k, tier, runs[i - 1].end, runs[i].end);
    }
  }

  // ---------------------------------------------------------------- the straddled hour

  lemma {:induction false} WindowSplits(ss: seq<Sample>, g: Grain, b: nat, lo: int, mid: int, hi: int)
    requires lo <= mid <= hi + 1
    ensures BucketSum(ss, g, b, lo, hi) == BucketSum(ss, g, b, lo, mid - 1) + BucketSum(ss, g, b, mid, hi)
  {
    if ss != [] {
      WindowSplits(ss[..|ss| - 1], g, b, lo, mid, hi);
    }
  }

  /** What the run no longer sees of an hour: its rows before `hourlyStart`. */
  function Head(src: Sources, k: Key, w: Window): real {
    BucketSum(SamplesOf(src, k.org, k.metric), ByHour, k.bucket, 0, w.hourlyStart - 1)
  }

  /** An hour is overwritten with its tail, so it stays exact if and only if nothing was added
      before `hourlyStart`; if it was exact before, that is also when it does not drop. */
  lemma StraddledHourLosesItsHead(before: Rows, after: Rows, src: Sources, wrote: map<Org, set<Metric>>, end: nat,
                                  k: Key)
    requires HasWindow(end) && AllNonNegative(src) && TierRun(before, after, Hourly, src, wrote, WindowAt(end))
    requires Writes(k, src, wrote, Hourly, WindowAt(end))
    ensures k in after && after[k].value == Total(src, k, Hourly, end) - Head(src, k, WindowAt(end))
    ensures after[k].value == Total(src, k, Hourly, end) <==> Head(src, k, WindowAt(end)) == 0.0
    ensures k in before && before[k].value == Total(src, k, Hourly, end) ==>
      (after[k].value < before[k].value <==> Head(src, k, WindowAt(end)) > 0.0)
  {
    hide WindowAt;
    hide HasWindow;
    hide Writes;
    hide WrittenAt;
    hide Total;
    hide Head;
    hide AllNonNegative;
    assert after[k] == WrittenAt(k, src, Hourly, WindowAt(end));
    TailIsRest(k, src, end);
    HeadIsNat(src, k, end);
  }

  /** What a run writes of an hour. */
  lemma TailIsRest(k: Key, src: Sources, end: nat)
    requires HasWindow(end)
    ensures WrittenAt(k, src, Hourly, WindowAt(end)).value == Total(src, k, Hourly, end) - Head(src, k, WindowAt(end))
  {
    WindowIsOrdered(end);
    WindowEnd(end);
    TailOf(k, src, WindowAt(end));
  }

  lemma TailOf(k: Key, src: Sources, w: Window)
    requires 0 <= w.hourlyStart <= w.end
    ensures WrittenAt(k, src, Hourly, w).value == Total(src, k, Hourly, w.end) - Head(src, k, w)
  {
    hide SamplesOf;
    hide BucketSum;
    WindowSplits(SamplesOf(src, k.org, k.metric), ByHour, k.bucket, 0, w.hourlyStart, w.end);
  }

  /** What the last run that wrote an hour still saw of it is what the table holds: its total up to
      that run, less everything before that run's `hourlyStart`. */
  lemma HourIsLastTail(tabs: seq<Tables>, runs: seq<Run>, n: nat, k: Key, j: nat)
    requires History(tabs, runs) && n <= |runs| && |tabs| == |runs| + 1 && LastWriter(runs, n, Hourly, k) == Some(j)
    ensures j < |runs| && HasWindow(runs[j].end) && k in tabs[n].hourly
    ensures tabs[n].hourly[k].value ==
            Total(runs[j].src, k, Hourly, runs[j].end) - Head(runs[j].src, k, WindowAt(runs[j].end))
    ensures Head(runs[j].src, k, WindowAt(runs[j].end)) >= 0.0
  {
    RowIsLastWritten(tabs, runs, n, Hourly, k);
    RunsInOrder(tabs, runs, j, j);
    TierRan(tabs, runs, j, Hourly);
    hide History;
    hide WindowAt;
    StraddledHourLosesItsHead(tabs[j].hourly, tabs[j + 1].hourly, runs[j].src, runs[j].log.hourly, runs[j].end, k);
    HeadIsNat(runs[j].src, k, runs[j].end);
  }

  lemma HeadIsNat(src: Sources, k: Key, end: nat)
    requires HasWindow(end) && AllNonNegative(src)
    ensures Head(src, k, WindowAt(end)) >= 0.0
  {
    hide WindowAt;
    hide HasWindow;
    hide AllNonNegative;
    hide SamplesOf;
    hide BucketSum;
    var ss, e := SamplesOf(src, k.org, k.metric), WindowAt(end).hourlyStart - 1;
    SamplesAreNonNegative(src, k.org, k.metric);
    BucketGrows(ss, ss, ByHour, k.bucket, 0, 0, e, e);
  }

  lemma SamplesAreNonNegative(src: Sources, o: Org, m: Metric)
    requires AllNonNegative(src)
    ensures NonNegative(SamplesOf(src, o, m))
  {
  }

  /** After any history a stored hour is right if and only if the last run that wrote it lost nothing
      in front of its window and nothing has been added to the hour since. */
  lemma HourIsRightIff(tabs: seq<Tables>, runs: seq<Run>, n: nat, k: Key, j: nat)
    requires History(tabs, runs) && 0 < n <= |runs| && |tabs| == |runs| + 1 && LastWriter(runs, n, Hourly, k) == Some(j)
    ensures j < n && HasWindow(runs[j].end) && k in tabs[n].hourly
    ensures tabs[n].hourly[k].value == Total(runs[n - 1].src, k, Hourly, runs[n - 1].end) <==>
            && Head(runs[j].src, k, WindowAt(runs[j].end)) == 0.0
            && Total(runs[j].src, k, Hourly, runs[j].end) == Total(runs[n - 1].src, k, Hourly, runs[n - 1].end)
  {
    hide History;
    hide WindowAt;
    hide Total;
    hide Head;
    hide HasWindow;
    hide RunWrites;
    HourIsLastTail(tabs, runs, n, k, j);
    TotalsGrowOverRuns(tabs, runs, j, n - 1, k);
  }

  /** An hour that a run has cut, with something in front of the cut, never recovers: every run sees
      less of the hour's head than the one before. */
  lemma CutHourNeverRecovers(tabs: seq<Tables>, runs: seq<Run>, c: nat, n: nat, k: Key)
    requires History(tabs, runs) && |tabs| == |runs| + 1 && c < n <= |runs|
    requires RunWrites(runs[c], Hourly, k) && Head(runs[c].src, k, WindowAt(runs[c].end)) > 0.0
    ensures k in tabs[n].hourly
    ensures tabs[n].hourly[k].value < Total(runs[n - 1].src, k, Hourly, runs[n - 1].end)
  {
    hide *;
    var j := WrittenSince(runs, c, n, k);
    HourIsLastTail(tabs, runs, n, k, j);
    CutIsShort(tabs, runs, c, j, n, k);
  }

  lemma CutIsShort(tabs: seq<Tables>, runs: seq<Run>, c: nat, j: nat, n: nat, k: Key)
    requires History(tabs, runs) && c <= j < n <= |runs| && HasWindow(runs[c].end) && HasWindow(runs[j].end)
    requires Head(runs[c].src, k, WindowAt(runs[c].end)) > 0.0
    ensures Total(runs[j].src, k, Hourly, runs[j].end) - Head(runs[j].src, k, WindowAt(runs[j].end)) <
            Total(runs[n - 1].src, k, Hourly, runs[n - 1].end)
  {
    hide *;
    HeadsGrowOverRuns(tabs, runs, c, j, k);
    TotalsGrowOverRuns(tabs, runs, j, n - 1, k);
  }

  lemma WrittenSince(runs: seq<Run>, c: nat, n: nat, k: Key) returns (j: nat)
    requires c < n <= |runs| && RunWrites(runs[c], Hourly, k)
    ensures LastWriter(runs, n, Hourly, k) == Some(j) && c <= j < n && HasWindow(runs[c].end)
  {
    assert HasWindow(runs[c].end);
    hide RunWrites;
    j := LastWriter(runs, n, Hourly, k).value;
  }

  /** Runs have windows and non-negative sources. */
  lemma RunsAreFine(tabs: seq<Tables>, runs: seq<Run>, i: nat)
    requires History(tabs, runs) && i < |runs|
    ensures HasWindow(runs[i].end) && AllNonNegative(runs[i].src)
  {
  }

  lemma HeadsGrowOverRuns(tabs: seq<Tables>, runs: seq<Run>, i: nat, j: nat, k: Key)
    requires History(tabs, runs) && i <= j < |runs| && HasWindow(runs[i].end) && HasWindow(runs[j].end)
    ensures Head(runs[i].src, k, WindowAt(runs[i].end)) <= Head(runs[j].src, k, WindowAt(runs[j].end))
  {
    hide History;
    hide WindowAt;
    hide HasWindow;
    hide Head;
    hide Grows;
    hide AllNonNegative;
    RunsAreFine(tabs, runs, j);
    RunsInOrder(tabs, runs, i, j);
    HeadsGrow(runs[i].src, runs[j].src, k, runs[i].end, runs[j].end);
  }

  lemma TotalsGrowOverRuns(tabs: seq<Tables>, runs: seq<Run>, i: nat, j: nat, k: Key)
    requires History(tabs, runs) && i <= j < |runs|
    ensures Total(runs[i].src, k, Hourly, runs[i].end) <= Total(runs[j].src, k, Hourly, runs[j].end)
  {
    hide History;
    hide Total;
    hide Grows;
    hide AllNonNegative;
    RunsAreFine(tabs, runs, j);
    RunsInOrder(tabs, runs, i, j);
    TotalsGrow(runs[i].src, runs[j].src, k, Hourly, runs[i].end, runs[j].end);
  }

  lemma HourlyStartIs(end: nat)
    requires HasWindow(end)
    ensures WindowAt(end).hourlyStart == end - 24 * HOUR
  {
  }

  lemma HeadsGrow(s: Sources, t: Sources, k: Key, end: nat, later: nat)
    requires HasWindow(end) && HasWindow(later) && Grows(s, t) && AllNonNegative(t) && end <= later
    ensures Head(s, k, WindowAt(end)) <= Head(t, k, WindowAt(later))
  {
    hide SamplesOf;
    hide WindowAt;
    hide BucketSum;
    hide HasWindow;
    hide AllNonNegative;
    hide Grows;
    SamplesGrow(s, t, k.org, k.metric);
    var xs, ys := SamplesOf(s, k.org, k.metric), SamplesOf(t, k.org, k.metric);
    HourlyStartIs(end);
    HourlyStartIs(later);
    BucketGrows(xs, ys, ByHour, k.bucket, 0, 0, WindowAt(end).hourlyStart - 1, WindowAt(later).hourlyStart - 1);
  }

  lemma SamplesGrow(s: Sources, t: Sources, o: Org, m: Metric)
    requires Grows(s, t) && AllNonNegative(t)
    ensures SamplesOf(s, o, m) <= SamplesOf(t, o, m) && NonNegative(SamplesOf(t, o, m))
  {
  }
}
