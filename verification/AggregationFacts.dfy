/** What the rows of a complete run hold, counted directly over the source rows. */
module AggregationFacts {
  import opened Calendar
  import opened CalendarFacts
  import opened GroupBy
  import opened MetricKind
  import opened MetricQueries
  import opened MetricRollup
  import opened MetricAggregation
  import opened AggregationHistory
  import opened Options

  // ---------------------------------------------------------------- which rows there are

  /** Pages, failed pages and costs are amounts; everything else is counted. */
  lemma KindsAre(m: Metric)
    ensures KindOf(m) == Histogram <==> m in {PagesProcessed, FailedPages, LlmUsage}
  {
  }

  /** All rows are of the default project and have an empty tag. */
  lemma KeysAre(o: Org, b: nat, m: Metric)
    ensures
      var k := KeyOf(o, b, m);
      k.org == o && k.bucket == b && k.metric == m && k.project == "default" && k.tag == ""
  {
  }

  /** An organization is active if an execution of it began no earlier than midnight a week ago. */
  lemma ActiveIs(src: Sources, o: Org, end: nat)
    requires HasWindow(end) && o in src
    ensures
      var midnight := end - 7 * 86_400_000_000 - (end - 7 * 86_400_000_000) % 86_400_000_000;
      IsActive(src, o, WindowAt(end)) <==>
      PromptExecutions in src[o].single && exists s | s in src[o].single[PromptExecutions] :: s.at >= midnight
  {
  }

  // ---------------------------------------------------------------- what they hold

  /** A row of the sources belongs to bucket `b` of a tier, up to the end date. */
  predicate Belongs(at: nat, tier: Tier, b: nat, end: nat) {
    at <= end && b == match tier
                      case Hourly => Trunc(ByHour, at)
                      case Daily => Trunc(ByDay, at)
                      case Monthly => Trunc(ByMonth, at)
  }

  lemma {:induction false} SamplesAddUp(ss: seq<Sample>, tier: Tier, b: nat, end: nat)
    ensures BucketSum(ss, GrainOf(tier), b, 0, end) ==
            SumIf(ss, (s: Sample) => Belongs(s.at, tier, b, end),
                  (s: Sample) => match s.amount case Some(x) => x case None => 0.0)
  {
    hide Trunc;
    if ss != [] {
      SamplesAddUp(ss[..|ss| - 1], tier, b, end);
    }
  }

  lemma {:induction false} UsageAddsUp(us: seq<UsageRow>, f: Field, tier: Tier, b: nat, end: nat, m: UsageRow -> real)
    requires forall u | u in us :: m(u) == match FieldSample(f, u).amount { case Some(x) => x case None => 0.0 }
    ensures BucketSum(FieldSamples(f, us), GrainOf(tier), b, 0, end) ==
            SumIf(us, (u: UsageRow) => Belongs(u.at, tier, b, end), m)
  {
    hide Trunc;
    if us != [] {
      var rest := us[..|us| - 1];
      UsageAddsUp(rest, f, tier, b, end, m);
      assert FieldSamples(f, us)[..|us| - 1] == FieldSamples(f, rest);
    }
  }

  /** Everything of the organization reached all three tables. */
  predicate GotEverything(log: Log, o: Org) {
    && o in log.hourly && log.hourly[o] == ALL_METRICS
    && o in log.daily && log.daily[o] == ALL_METRICS
    && o in log.monthly && log.monthly[o] == ALL_METRICS
  }

  /** So it did in a run without errors, for every organization that was active. */
  lemma ErrorFreeRunGotEverything(log: Log, src: Sources, orgs: seq<Org>, end: nat, o: Org)
    requires HasWindow(end) && LogOf(log, ActiveOrgs(src, orgs, WindowAt(end))) && Complete(log)
    requires o in orgs && IsActive(src, o, WindowAt(end))
    ensures GotEverything(log, o)
  {
    hide IsActive;
    hide WindowAt;
  }

  lemma RowIs(before: Tables, after: Tables, src: Sources, log: Log, end: nat, o: Org, m: Metric, tier: Tier, b: nat)
    requires HasWindow(end) && Ran(before, after, src, log, WindowAt(end)) && GotEverything(log, o)
    requires StartOf(tier, WindowAt(end)) <= b && BucketHas(SamplesOf(src, o, m), GrainOf(tier), b, 0, end)
    ensures
      var k, rows := KeyOf(o, b, m), TierRows(after, tier);
      && k in rows && rows[k].kind == KindOf(m)
      && rows[k].value == BucketSum(SamplesOf(src, o, m), GrainOf(tier), b, 0, end)
      && (!tier.Monthly? ==> rows[k].count == 1)
  {
    var k := KeyOf(o, b, m);
    WrittenIsExact(k, src, tier, end);
    hide WindowAt;
    hide BucketHas;
    hide SamplesOf;
    hide BucketSum;
    assert m in ALL_METRICS by {
      IsConfigOrLlm(m);
    }
    assert TierRun(TierRows(before, tier), TierRows(after, tier), tier, src, LogAt(log, tier), WindowAt(end));
    assert Writes(k, src, LogAt(log, tier), tier, WindowAt(end));
  }

  /** After a run that got everything of an organization written, each hour, day and month that starts
      in its window holds, for a metric with samples of its own, their sum. */
  lemma SingleMetricIsDirect(before: Tables, after: Tables, src: Sources, log: Log, end: nat, o: Org, m: Metric,
                             tier: Tier, b: nat, i: nat)
    requires HasWindow(end) && Ran(before, after, src, log, WindowAt(end)) && GotEverything(log, o)
    requires o in src && m in src[o].single && m !in {LlmCalls, Challenges, SummarizationCalls, LlmUsage}
    requires StartOf(tier, WindowAt(end)) <= b
    requires i < |src[o].single[m]| && Belongs(src[o].single[m][i].at, tier, b, end)
    ensures
      var k, rows := Key(o, b, m, "default", ""), TierRows(after, tier);
      && k in rows && (rows[k].kind == Histogram <==> m == PagesProcessed || m == FailedPages)
      && rows[k].value == SumIf(src[o].single[m], (s: Sample) => Belongs(s.at, tier, b, end),
                                (s: Sample) => match s.amount case Some(x) => x case None => 0.0)
  {
    var ss := src[o].single[m];
    assert SamplesOf(src, o, m) == ss;
    assert ss[i] in ss && Hits(ss[i], GrainOf(tier), b, 0, end);
    RowIs(before, after, src, log, end, o, m, tier, b);
    SamplesAddUp(ss, tier, b, end);
  }

  lemma UsageRowIs(before: Tables, after: Tables, src: Sources, log: Log, end: nat, o: Org, f: Field, tier: Tier,
                   b: nat, i: nat, m: UsageRow -> real)
    requires HasWindow(end) && Ran(before, after, src, log, WindowAt(end)) && GotEverything(log, o)
    requires o in src && StartOf(tier, WindowAt(end)) <= b
    requires i < |src[o].usage| && Belongs(src[o].usage[i].at, tier, b, end)
    requires forall u | u in src[o].usage ::
               m(u) == match FieldSample(f, u).amount { case Some(x) => x case None => 0.0 }
    ensures
      var k, rows := Key(o, b, MetricOf(f), "default", ""), TierRows(after, tier);
      k in rows && rows[k].kind == KindOf(MetricOf(f))
      && rows[k].value == SumIf(src[o].usage, (u: UsageRow) => Belongs(u.at, tier, b, end), m)
  {
    var us := src[o].usage;
    var ss := FieldSamples(f, us);
    assert SamplesOf(src, o, MetricOf(f)) == ss;
    assert ss[i] in ss && Hits(ss[i], GrainOf(tier), b, 0, end);
    RowIs(before, after, src, log, end, o, MetricOf(f), tier, b);
    UsageAddsUp(us, f, tier, b, end, m);
  }

  /** And of a bucket with a usage row: the number of its rows, of those for challenges and of those for
      summaries, and the sum of the costs. */
  lemma UsageIsDirect(before: Tables, after: Tables, src: Sources, log: Log, end: nat, o: Org, tier: Tier, b: nat,
                      i: nat)
    requires HasWindow(end) && Ran(before, after, src, log, WindowAt(end)) && GotEverything(log, o)
    requires o in src && StartOf(tier, WindowAt(end)) <= b
    requires i < |src[o].usage| && Belongs(src[o].usage[i].at, tier, b, end)
    ensures
      var us, inside := src[o].usage, (u: UsageRow) => Belongs(u.at, tier, b, end);
      && HasRow(after, tier, o, b, LlmCalls, Counter, SumIf(us, inside, (u: UsageRow) => 1.0))
      && HasRow(after, tier, o, b, Challenges, Counter,
                SumIf(us, inside, (u: UsageRow) => if u.reason == ForChallenge then 1.0 else 0.0))
      && HasRow(after, tier, o, b, SummarizationCalls, Counter,
                SumIf(us, inside, (u: UsageRow) => if u.reason == ForSummarize then 1.0 else 0.0))
      && HasRow(after, tier, o, b, LlmUsage, Histogram,
                SumIf(us, inside, (u: UsageRow) => match u.cost case Some(x) => x case None => 0.0))
  {
    hide WindowAt;
    hide Ran;
    hide Belongs;
    hide SumIf;
    hide StartOf;
    UsageRowIs(before, after, src, log, end, o, Calls, tier, b, i, (u: UsageRow) => 1.0);
    UsageRowIs(before, after, src, log, end, o, Challenged, tier, b, i,
               (u: UsageRow) => if u.reason == ForChallenge then 1.0 else 0.0);
    UsageRowIs(before, after, src, log, end, o, Summarized, tier, b, i,
               (u: UsageRow) => if u.reason == ForSummarize then 1.0 else 0.0);
    UsageRowIs(before, after, src, log, end, o, Cost, tier, b, i,
               (u: UsageRow) => match u.cost case Some(x) => x case None => 0.0);
  }

  /** The row of a metric is there, of this kind and with this value. */
  predicate HasRow(t: Tables, tier: Tier, o: Org, b: nat, m: Metric, kind: Kind, value: real) {
    var k, rows := Key(o, b, m, "default", ""), TierRows(t, tier);
    k in rows && rows[k].kind == kind && rows[k].value == value
  }
}
