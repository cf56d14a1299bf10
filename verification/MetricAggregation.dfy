/** One aggregation run: every active organization's metrics are rolled up and written over the
    hourly, daily and monthly tables; any query and any write may fail. */
module MetricAggregation {
  import opened Calendar
  import opened MetricQueries
  import opened MetricRollup
  import opened Options

  /** The source rows of one organization: eight tables of samples and the usage table. */
  datatype OrgSources = OrgSources(single: map<Metric, seq<Sample>>, usage: seq<UsageRow>)

  type Sources = map<Org, OrgSources>

  function FieldOf(m: Metric): Option<Field> {
    match m
    case LlmCalls => Some(Calls)
    case Challenges => Some(Challenged)
    case SummarizationCalls => Some(Summarized)
    case LlmUsage => Some(Cost)
    case _ => None
  }

  function OrgSamples(src: OrgSources, m: Metric): seq<Sample> {
    if FieldOf(m).Some? then FieldSamples(FieldOf(m).value, src.usage)
    else if m in src.single then src.single[m] else []
  }

  function SamplesOf(src: Sources, o: Org, m: Metric): seq<Sample> {
    if o in src then OrgSamples(src[o], m) else []
  }

  const METRIC_CONFIGS: seq<Metric> := [
    DocumentsProcessed, PagesProcessed, DeployedApiRequests, EtlPipelineExecutions,
    PromptExecutions, FailedPages, HitlReviews, HitlCompletions]

  const LLM_METRICS: set<Metric> := {LlmCalls, Challenges, SummarizationCalls, LlmUsage}
  const ALL_METRICS: set<Metric> := {
    DocumentsProcessed, PagesProcessed, DeployedApiRequests, EtlPipelineExecutions,
    PromptExecutions, FailedPages, HitlReviews, HitlCompletions,
    LlmCalls, Challenges, SummarizationCalls, LlmUsage}

  /** Which of a metric's two queries raises, if any. */
  datatype QueryFate = Fine | HourFails | DayFails

  /** What goes wrong for one organization: queries, and the tier whose write raises. */
  datatype Fates = Fates(single: map<Metric, QueryFate>, llm: QueryFate, write: Option<Tier>)

  function FateOf(f: Fates, m: Metric): QueryFate {
    if m in LLM_METRICS then f.llm else if m in f.single then f.single[m] else Fine
  }

  /** Rows that were folded in before a query raised stay in their dict. */
  predicate Delivers(fate: QueryFate, tier: Tier) {
    fate.Fine? || (fate.DayFails? && tier.Hourly?)
  }

  function Delivered(f: Fates, tier: Tier): set<Metric> {
    set m | m in ALL_METRICS && Delivers(FateOf(f, m), tier)
  }

  function SourcesOf(src: OrgSources, ms: set<Metric>): map<Metric, seq<Sample>> {
    map m | m in ms :: OrgSamples(src, m)
  }

  // ---------------------------------------------------------------- what a run writes

  predicate Writes(k: Key, src: Sources, wrote: map<Org, set<Metric>>, tier: Tier, w: Window) {
    && k.org in wrote && k.metric in wrote[k.org] && k == KeyOf(k.org, k.bucket, k.metric)
    && TierHas(SamplesOf(src, k.org, k.metric), tier, k.bucket, w)
  }

  function WrittenAt(k: Key, src: Sources, tier: Tier, w: Window): Agg {
    TierAgg(k.metric, SamplesOf(src, k.org, k.metric), tier, k.bucket, w)
  }

  /** A run overwrites the rows of the buckets it saw for the metrics in `wrote`, one row per
      key, and touches no other. */
  ghost predicate TierRun(before: Rows, after: Rows, tier: Tier, src: Sources, wrote: map<Org, set<Metric>>,
                          w: Window) {
    forall k: Key ::
      if Writes(k, src, wrote, tier, w) then k in after && after[k] == WrittenAt(k, src, tier, w)
      else SameAt(before, after, k)
  }

  lemma RunOfNothing(rows: Rows, tier: Tier, src: Sources, w: Window)
    ensures TierRun(rows, rows, tier, src, map[], w)
  {
  }

  lemma RunsJoin(a: Rows, b: Rows, c: Rows, tier: Tier, src: Sources,
                 xs: map<Org, set<Metric>>, ys: map<Org, set<Metric>>, w: Window)
    requires TierRun(a, b, tier, src, xs, w) && TierRun(b, c, tier, src, ys, w) && xs.Keys !! ys.Keys
    ensures TierRun(a, c, tier, src, xs + ys, w)
  {
    hide TierHas;
    hide TierAgg;
    forall k: Key
      ensures
        if Writes(k, src, xs + ys, tier, w) then k in c && c[k] == WrittenAt(k, src, tier, w) else SameAt(a, c, k)
    {
      assert Writes(k, src, xs + ys, tier, w) <==> Writes(k, src, xs, tier, w) || Writes(k, src, ys, tier, w);
      assert !(Writes(k, src, xs, tier, w) && Writes(k, src, ys, tier, w));
    }
  }

  /** Overwriting a table with a dict filled from nothing. */
  lemma OverwriteIsRun(table: Rows, dict: Rows, o: Org, src: Sources, ms: set<Metric>, tier: Tier, w: Window)
    requires o in src && Gained(map[], dict, o, SourcesOf(src[o], ms), tier, w)
    ensures TierRun(table, table + dict, tier, src, map[o := ms], w)
  {
    hide TierHas;
    hide TierAgg;
    hide OrgSamples;
    var wrote := map[o := ms];
    forall k: Key
      ensures
        if Writes(k, src, wrote, tier, w) then k in table + dict && (table + dict)[k] == WrittenAt(k, src, tier, w)
        else SameAt(table, table + dict, k)
    {
      assert Writes(k, src, wrote, tier, w) <==> Concerns(k, o, SourcesOf(src[o], ms), tier, w);
    }
  }

  // ---------------------------------------------------------------- the loops

  lemma UpsertMore(rows: Rows, es: seq<Entry>, more: seq<Entry>)
    requires |more| <= 1
    ensures UpsertAll(rows, es + more) ==
            if more == [] then UpsertAll(rows, es) else Upsert(UpsertAll(rows, es), more[0])
  {
    if more == [] {
      assert es + more == es;
    } else {
      assert (es + more)[..|es|] == es;
    }
  }

  /** One more row: what it adds to the batch so far. */
  lemma NextRow(before: Rows, tier: Tier, o: Org, m: Metric, rows: seq<Row>, i: nat, w: Window)
    requires i < |rows|
    ensures
      var was, more := UpsertAll(before, TierEntries(tier, o, m, rows[..i], w)), RowEntries(tier, o, m, rows[i], w);
      UpsertAll(before, TierEntries(tier, o, m, rows[..i + 1], w)) == if more == [] then was else Upsert(was, more[0])
  {
    hide Trunc;
    assert rows[..i + 1][..i] == rows[..i];
    UpsertMore(before, TierEntries(tier, o, m, rows[..i], w), RowEntries(tier, o, m, rows[i], w));
  }

  method FoldHours(rows: seq<Row>, o: Org, m: Metric, w: Window, hourlyAgg: AggDict)
    modifies hourlyAgg
    ensures hourlyAgg.rows == UpsertAll(old(hourlyAgg.rows), TierEntries(Hourly, o, m, rows, w))
  {
    hide Upsert;
    hide Trunc;
    for i := 0 to |rows|
      invariant hourlyAgg.rows == UpsertAll(old(hourlyAgg.rows), TierEntries(Hourly, o, m, rows[..i], w))
    {
      NextRow(old(hourlyAgg.rows), Hourly, o, m, rows, i, w);
      hourlyAgg.UpsertAgg(KeyOf(o, Trunc(ByHour, rows[i].period), m), KindOf(m), Or0(rows[i].value));
    }
    assert rows[..|rows|] == rows;
  }

  /** One pass fills two tiers. */
  method FoldDays(rows: seq<Row>, o: Org, m: Metric, w: Window, dailyAgg: AggDict, monthlyAgg: AggDict)
    requires dailyAgg != monthlyAgg
    modifies dailyAgg, monthlyAgg
    ensures dailyAgg.rows == UpsertAll(old(dailyAgg.rows), TierEntries(Daily, o, m, rows, w))
    ensures monthlyAgg.rows == UpsertAll(old(monthlyAgg.rows), TierEntries(Monthly, o, m, rows, w))
  {
    hide Upsert;
    hide Trunc;
    for i := 0 to |rows|
      invariant dailyAgg.rows == UpsertAll(old(dailyAgg.rows), TierEntries(Daily, o, m, rows[..i], w))
      invariant monthlyAgg.rows == UpsertAll(old(monthlyAgg.rows), TierEntries(Monthly, o, m, rows[..i], w))
    {
      NextRow(old(dailyAgg.rows), Daily, o, m, rows, i, w);
      NextRow(old(monthlyAgg.rows), Monthly, o, m, rows, i, w);
      var value := Or0(rows[i].value);
      var day := Trunc(ByDay, rows[i].period);
      if day >= w.dailyStart {
        dailyAgg.UpsertAgg(KeyOf(o, day, m), KindOf(m), value);
      }
      monthlyAgg.UpsertAgg(KeyOf(o, Trunc(ByMonth, rows[i].period), m), KindOf(m), value);
    }
    assert rows[..|rows|] == rows;
  }

  /** The batch after `j` fields of row `i`. */
  function Partial(tier: Tier, o: Org, rows: seq<CombinedRow>, i: nat, j: nat, w: Window): (es: seq<Entry>)
    requires i < |rows| && j <= 4
    ensures WellKinded(es)
  {
    CombinedEntries(tier, o, rows[..i], w) + FieldEntries(tier, o, LLM_FIELDS[..j], rows[i], w)
  }

  lemma PartialEnds(tier: Tier, o: Org, rows: seq<CombinedRow>, i: nat, w: Window)
    requires i < |rows|
    ensures Partial(tier, o, rows, i, 0, w) == CombinedEntries(tier, o, rows[..i], w)
    ensures Partial(tier, o, rows, i, 4, w) == CombinedEntries(tier, o, rows[..i + 1], w)
  {
    assert LLM_FIELDS[..0] == [] && LLM_FIELDS[..4] == LLM_FIELDS;
    assert rows[..i + 1][..i] == rows[..i];
  }

  /** One more field of a combined row. */
  lemma FieldsSplit(tier: Tier, o: Org, row: CombinedRow, j: nat, w: Window)
    requires j < 4
    ensures
      FieldEntries(tier, o, LLM_FIELDS[..j + 1], row, w) ==
      FieldEntries(tier, o, LLM_FIELDS[..j], row, w) +
      RowEntries(tier, o, MetricOf(LLM_FIELDS[j]), Row(row.period, Column(row, LLM_FIELDS[j])), w)
  {
    hide RowEntries;
    assert LLM_FIELDS[..j + 1][..j] == LLM_FIELDS[..j];
  }

  lemma RegroupEntries(xs: seq<Entry>, ys: seq<Entry>, zs: seq<Entry>)
    ensures xs + (ys + zs) == xs + ys + zs
  {
  }

  lemma NextField(before: Rows, tier: Tier, o: Org, rows: seq<CombinedRow>, i: nat, j: nat, w: Window)
    requires i < |rows| && j < 4
    ensures
      var f := LLM_FIELDS[j];
      var was := UpsertAll(before, Partial(tier, o, rows, i, j, w));
      var more := RowEntries(tier, o, MetricOf(f), Row(rows[i].period, Column(rows[i], f)), w);
      UpsertAll(before, Partial(tier, o, rows, i, j + 1, w)) == if more == [] then was else Upsert(was, more[0])
  {
    var f := LLM_FIELDS[j];
    var more := RowEntries(tier, o, MetricOf(f), Row(rows[i].period, Column(rows[i], f)), w);
    FieldsSplit(tier, o, rows[i], j, w);
    RowEntryIs(tier, o, MetricOf(f), Row(rows[i].period, Column(rows[i], f)), w);
    hide RowEntries;
    hide FieldEntries;
    hide CombinedEntries;
    hide UpsertAll;
    RegroupEntries(CombinedEntries(tier, o, rows[..i], w), FieldEntries(tier, o, LLM_FIELDS[..j], rows[i], w), more);
    UpsertMore(before, Partial(tier, o, rows, i, j, w), more);
  }

  lemma NoRowsYet(before: Rows, tier: Tier, o: Org, rows: seq<CombinedRow>, w: Window)
    ensures UpsertAll(before, CombinedEntries(tier, o, rows[..0], w)) == before
  {
  }

  method FoldCombinedHours(rows: seq<CombinedRow>, o: Org, w: Window, hourlyAgg: AggDict)
    modifies hourlyAgg
    ensures hourlyAgg.rows == UpsertAll(old(hourlyAgg.rows), CombinedEntries(Hourly, o, rows, w))
  {
    hide UpsertAll;
    hide CombinedEntries;
    hide FieldEntries;
    hide Partial;
    hide Upsert;
    hide Trunc;
    NoRowsYet(hourlyAgg.rows, Hourly, o, rows, w);
    for i := 0 to |rows|
      invariant hourlyAgg.rows == UpsertAll(old(hourlyAgg.rows), CombinedEntries(Hourly, o, rows[..i], w))
    {
      PartialEnds(Hourly, o, rows, i, w);
      for j := 0 to 4
        invariant hourlyAgg.rows == UpsertAll(old(hourlyAgg.rows), Partial(Hourly, o, rows, i, j, w))
      {
        NextField(old(hourlyAgg.rows), Hourly, o, rows, i, j, w);
        var f := LLM_FIELDS[j];
        hourlyAgg.UpsertAgg(KeyOf(o, Trunc(ByHour, rows[i].period), MetricOf(f)), KindOf(MetricOf(f)),
                            Or0(Column(rows[i], f)));
      }
    }
    assert rows[..|rows|] == rows;
  }

  method FoldCombinedDays(rows: seq<CombinedRow>, o: Org, w: Window, dailyAgg: AggDict, monthlyAgg: AggDict)
    requires dailyAgg != monthlyAgg
    modifies dailyAgg, monthlyAgg
    ensures dailyAgg.rows == UpsertAll(old(dailyAgg.rows), CombinedEntries(Daily, o, rows, w))
    ensures monthlyAgg.rows == UpsertAll(old(monthlyAgg.rows), CombinedEntries(Monthly, o, rows, w))
  {
    hide UpsertAll;
    hide CombinedEntries;
    hide FieldEntries;
    hide Partial;
    hide Upsert;
    hide Trunc;
    NoRowsYet(dailyAgg.rows, Daily, o, rows, w);
    NoRowsYet(monthlyAgg.rows, Monthly, o, rows, w);
    for i := 0 to |rows|
      invariant dailyAgg.rows == UpsertAll(old(dailyAgg.rows), CombinedEntries(Daily, o, rows[..i], w))
      invariant monthlyAgg.rows == UpsertAll(old(monthlyAgg.rows), CombinedEntries(Monthly, o, rows[..i], w))
    {
      PartialEnds(Daily, o, rows, i, w);
      PartialEnds(Monthly, o, rows, i, w);
      for j := 0 to 4
        invariant dailyAgg.rows == UpsertAll(old(dailyAgg.rows), Partial(Daily, o, rows, i, j, w))
        invariant monthlyAgg.rows == UpsertAll(old(monthlyAgg.rows), Partial(Monthly, o, rows, i, j, w))
      {
        NextField(old(dailyAgg.rows), Daily, o, rows, i, j, w);
        NextField(old(monthlyAgg.rows), Monthly, o, rows, i, j, w);
        var f := LLM_FIELDS[j];
        var value, day := Or0(Column(rows[i], f)), Trunc(ByDay, rows[i].period);
        if day >= w.dailyStart {
          dailyAgg.UpsertAgg(KeyOf(o, day, MetricOf(f)), KindOf(MetricOf(f)), value);
        }
        monthlyAgg.UpsertAgg(KeyOf(o, Trunc(ByMonth, rows[i].period), MetricOf(f)), KindOf(MetricOf(f)), value);
      }
    }
    assert rows[..|rows|] == rows;
  }

  /** `after` has gained these metrics in this tier if their queries delivered. */
  ghost predicate Fed(before: Rows, after: Rows, fate: QueryFate, o: Org, srcs: map<Metric, seq<Sample>>, tier: Tier,
                      w: Window) {
    if Delivers(fate, tier) then Gained(before, after, o, srcs, tier, w) else after == before
  }

  /** Two queries, three tiers. A raise leaves what was folded in before it. */
  method AggregateSingleMetric(o: Org, m: Metric, ss: seq<Sample>, w: Window, fate: QueryFate,
                               hourlyAgg: AggDict, dailyAgg: AggDict, monthlyAgg: AggDict)
    returns (raised: bool)
    requires IsOrdered(w) && hourlyAgg != dailyAgg && dailyAgg != monthlyAgg && hourlyAgg != monthlyAgg
    modifies hourlyAgg, dailyAgg, monthlyAgg
    ensures raised == !fate.Fine?
    ensures Fed(old(hourlyAgg.rows), hourlyAgg.rows, fate, o, map[m := ss], Hourly, w)
    ensures Fed(old(dailyAgg.rows), dailyAgg.rows, fate, o, map[m := ss], Daily, w)
    ensures Fed(old(monthlyAgg.rows), monthlyAgg.rows, fate, o, map[m := ss], Monthly, w)
  {
    hide Gained;
    if fate.HourFails? {
      return true;
    }
    FoldHours(Query(ss, ByHour, w.hourlyStart, w.end), o, m, w, hourlyAgg);
    TierGains(old(hourlyAgg.rows), o, m, ss, Hourly, w);
    if fate.DayFails? {
      return true;
    }
    FoldDays(Query(ss, ByDay, w.monthlyStart, w.end), o, m, w, dailyAgg, monthlyAgg);
    TierGains(old(dailyAgg.rows), o, m, ss, Daily, w);
    TierGains(old(monthlyAgg.rows), o, m, ss, Monthly, w);
    return false;
  }

  /** The same for the four LLM metrics at once. */
  method AggregateLlmCombined(o: Org, us: seq<UsageRow>, w: Window, fate: QueryFate,
                              hourlyAgg: AggDict, dailyAgg: AggDict, monthlyAgg: AggDict)
    returns (raised: bool)
    requires IsOrdered(w) && hourlyAgg != dailyAgg && dailyAgg != monthlyAgg && hourlyAgg != monthlyAgg
    modifies hourlyAgg, dailyAgg, monthlyAgg
    ensures raised == !fate.Fine?
    ensures Fed(old(hourlyAgg.rows), hourlyAgg.rows, fate, o, LlmSources(us), Hourly, w)
    ensures Fed(old(dailyAgg.rows), dailyAgg.rows, fate, o, LlmSources(us), Daily, w)
    ensures Fed(old(monthlyAgg.rows), monthlyAgg.rows, fate, o, LlmSources(us), Monthly, w)
  {
    hide Gained;
    hide LlmSources;
    if fate.HourFails? {
      return true;
    }
    FoldCombinedHours(CombinedQuery(us, ByHour, w.hourlyStart, w.end), o, w, hourlyAgg);
    CombinedGains(old(hourlyAgg.rows), o, us, Hourly, w);
    if fate.DayFails? {
      return true;
    }
    FoldCombinedDays(CombinedQuery(us, ByDay, w.monthlyStart, w.end), o, w, dailyAgg, monthlyAgg);
    CombinedGains(old(dailyAgg.rows), o, us, Daily, w);
    CombinedGains(old(monthlyAgg.rows), o, us, Monthly, w);
    return false;
  }

  // ---------------------------------------------------------------- one organization

  /** The metrics whose rows reach a tier's dict after the first `i` queries. */
  function DeliveredUpTo(f: Fates, tier: Tier, i: nat): set<Metric>
    requires i <= 8
  {
    set m | m in METRIC_CONFIGS[..i] && Delivers(FateOf(f, m), tier)
  }

  lemma NextConfig(f: Fates, tier: Tier, i: nat)
    requires i < 8
    ensures
      var m, was := METRIC_CONFIGS[i], DeliveredUpTo(f, tier, i);
      && m !in was && m !in LLM_METRICS
      && DeliveredUpTo(f, tier, i + 1) == if Delivers(FateOf(f, m), tier) then was + {m} else was
  {
    hide Delivers;
    hide FateOf;
    assert METRIC_CONFIGS[..i + 1] == METRIC_CONFIGS[..i] + [METRIC_CONFIGS[i]];
    assert forall j, k | 0 <= j < k < 8 :: METRIC_CONFIGS[j] != METRIC_CONFIGS[k];
  }

  lemma IsConfigOrLlm(m: Metric)
    ensures m in ALL_METRICS && (m in METRIC_CONFIGS <==> m !in LLM_METRICS)
  {
    match m
    case DocumentsProcessed => assert METRIC_CONFIGS[0] == m;
    case PagesProcessed => assert METRIC_CONFIGS[1] == m;
    case DeployedApiRequests => assert METRIC_CONFIGS[2] == m;
    case EtlPipelineExecutions => assert METRIC_CONFIGS[3] == m;
    case PromptExecutions => assert METRIC_CONFIGS[4] == m;
    case FailedPages => assert METRIC_CONFIGS[5] == m;
    case HitlReviews => assert METRIC_CONFIGS[6] == m;
    case HitlCompletions => assert METRIC_CONFIGS[7] == m;
    case _ =>
  }

  lemma DeliveredIff(f: Fates, tier: Tier, m: Metric)
    ensures m in Delivered(f, tier) <==> Delivers(FateOf(f, m), tier)
    ensures m in DeliveredUpTo(f, tier, 8) <==> m !in LLM_METRICS && Delivers(FateOf(f, m), tier)
  {
    hide Delivers;
    hide FateOf;
    IsConfigOrLlm(m);
    assert METRIC_CONFIGS[..8] == METRIC_CONFIGS;
  }

  lemma AllConfigs(f: Fates, tier: Tier)
    ensures
      var single := DeliveredUpTo(f, tier, 8);
      Delivered(f, tier) == if Delivers(f.llm, tier) then single + LLM_METRICS else single
    ensures DeliveredUpTo(f, tier, 8) !! LLM_METRICS
  {
    hide Delivers;
    hide Delivered;
    hide DeliveredUpTo;
    forall m
      ensures m in Delivered(f, tier) <==> Delivers(FateOf(f, m), tier)
      ensures m in DeliveredUpTo(f, tier, 8) <==> m !in LLM_METRICS && Delivers(FateOf(f, m), tier)
    {
      DeliveredIff(f, tier, m);
    }
  }

  lemma LlmSourcesAre(src: OrgSources)
    ensures LlmSources(src.usage) == SourcesOf(src, LLM_METRICS)
  {
  }

  lemma FeedMore(a: Rows, b: Rows, o: Org, src: OrgSources, xs: set<Metric>, ys: set<Metric>, fate: QueryFate,
                 tier: Tier, w: Window)
    requires Gained(map[], a, o, SourcesOf(src, xs), tier, w)
    requires Fed(a, b, fate, o, SourcesOf(src, ys), tier, w) && xs !! ys
    ensures Gained(map[], b, o, SourcesOf(src, if Delivers(fate, tier) then xs + ys else xs), tier, w)
  {
    hide Gained;
    hide OrgSamples;
    if Delivers(fate, tier) {
      GainsAddUp(map[], a, b, o, SourcesOf(src, xs), SourcesOf(src, ys), tier, w);
      assert SourcesOf(src, xs + ys) == SourcesOf(src, xs) + SourcesOf(src, ys);
    }
  }

  /** The three dicts of an organization after the first `i` metrics. */
  ghost predicate Filled(hours: Rows, days: Rows, months: Rows, o: Org, src: OrgSources, f: Fates, i: nat, w: Window)
    requires i <= 8
  {
    && Gained(map[], hours, o, SourcesOf(src, DeliveredUpTo(f, Hourly, i)), Hourly, w)
    && Gained(map[], days, o, SourcesOf(src, DeliveredUpTo(f, Daily, i)), Daily, w)
    && Gained(map[], months, o, SourcesOf(src, DeliveredUpTo(f, Monthly, i)), Monthly, w)
  }

  function QueryErrors(f: Fates, i: nat): nat
    requires i <= 8
  {
    if i == 0 then 0 else QueryErrors(f, i - 1) + if FateOf(f, METRIC_CONFIGS[i - 1]).Fine? then 0 else 1
  }

  function ErrorsOf(f: Fates): nat { QueryErrors(f, 8) + if f.llm.Fine? then 0 else 1 }

  lemma {:induction false} NoErrorsMeansFine(f: Fates, i: nat, j: nat)
    requires j < i <= 8 && QueryErrors(f, i) == 0
    ensures FateOf(f, METRIC_CONFIGS[j]).Fine?
    decreases i
  {
    if j < i - 1 {
      NoErrorsMeansFine(f, i - 1, j);
    }
  }

  lemma NoErrorsDeliverAll(f: Fates, tier: Tier)
    requires QueryErrors(f, 8) == 0 && f.llm.Fine?
    ensures Delivered(f, tier) == ALL_METRICS
  {
    forall j | 0 <= j < 8
      ensures FateOf(f, METRIC_CONFIGS[j]).Fine?
    {
      NoErrorsMeansFine(f, 8, j);
    }
    AllConfigs(f, tier);
    forall m
      ensures m in DeliveredUpTo(f, tier, 8) <==> m in METRIC_CONFIGS
    {
      assert METRIC_CONFIGS[..8] == METRIC_CONFIGS;
    }
    AllConfigs(Fates(map[], Fine, None), tier);
  }

  method FillDicts(o: Org, src: OrgSources, w: Window, f: Fates, hourlyAgg: AggDict, dailyAgg: AggDict,
                   monthlyAgg: AggDict)
    returns (failed: nat)
    requires IsOrdered(w) && hourlyAgg != dailyAgg && dailyAgg != monthlyAgg && hourlyAgg != monthlyAgg
    requires hourlyAgg.rows == map[] && dailyAgg.rows == map[] && monthlyAgg.rows == map[]
    modifies hourlyAgg, dailyAgg, monthlyAgg
    ensures failed == ErrorsOf(f)
    ensures Gained(map[], hourlyAgg.rows, o, SourcesOf(src, Delivered(f, Hourly)), Hourly, w)
    ensures Gained(map[], dailyAgg.rows, o, SourcesOf(src, Delivered(f, Daily)), Daily, w)
    ensures Gained(map[], monthlyAgg.rows, o, SourcesOf(src, Delivered(f, Monthly)), Monthly, w)
  {
    hide Gained;
    hide OrgSamples;
    hide DeliveredUpTo;
    hide Delivered;
    hide Delivers;
    hide Fed;
    hide FateOf;
    failed := 0;
    NothingFilled(o, src, f, w);
    for i := 0 to 8
      invariant failed == QueryErrors(f, i)
      invariant Filled(hourlyAgg.rows, dailyAgg.rows, monthlyAgg.rows, o, src, f, i, w)
    {
      var m := METRIC_CONFIGS[i];
      ghost var hours, days, months := hourlyAgg.rows, dailyAgg.rows, monthlyAgg.rows;
      var raised := AggregateSingleMetric(o, m, OrgSamples(src, m), w, FateOf(f, m), hourlyAgg, dailyAgg, monthlyAgg);
      if raised {
        failed := failed + 1;
      }
      assert SourcesOf(src, {m}) == map[m := OrgSamples(src, m)];
      NextConfig(f, Hourly, i);
      NextConfig(f, Daily, i);
      NextConfig(f, Monthly, i);
      FeedMore(hours, hourlyAgg.rows, o, src, DeliveredUpTo(f, Hourly, i), {m}, FateOf(f, m), Hourly, w);
      FeedMore(days, dailyAgg.rows, o, src, DeliveredUpTo(f, Daily, i), {m}, FateOf(f, m), Daily, w);
      FeedMore(months, monthlyAgg.rows, o, src, DeliveredUpTo(f, Monthly, i), {m}, FateOf(f, m), Monthly, w);
    }
    ghost var hours, days, months := hourlyAgg.rows, dailyAgg.rows, monthlyAgg.rows;
    var raised := AggregateLlmCombined(o, src.usage, w, f.llm, hourlyAgg, dailyAgg, monthlyAgg);
    if raised {
      failed := failed + 1;
    }
    LlmSourcesAre(src);
    AllConfigs(f, Hourly);
    AllConfigs(f, Daily);
    AllConfigs(f, Monthly);
    FeedMore(hours, hourlyAgg.rows, o, src, DeliveredUpTo(f, Hourly, 8), LLM_METRICS, f.llm, Hourly, w);
    FeedMore(days, dailyAgg.rows, o, src, DeliveredUpTo(f, Daily, 8), LLM_METRICS, f.llm, Daily, w);
    FeedMore(months, monthlyAgg.rows, o, src, DeliveredUpTo(f, Monthly, 8), LLM_METRICS, f.llm, Monthly, w);
  }

  lemma NothingFilled(o: Org, src: OrgSources, f: Fates, w: Window)
    ensures Filled(map[], map[], map[], o, src, f, 0, w)
  {
    assert METRIC_CONFIGS[..0] == [];
  }

  // ---------------------------------------------------------------- all organizations

  /** The organization has an execution in the last seven days or later. */
  predicate IsActive(src: Sources, o: Org, w: Window) {
    exists s | s in SamplesOf(src, o, PromptExecutions) :: s.at >= w.dailyStart
  }

  function ActiveOrgs(src: Sources, orgs: seq<Org>, w: Window): set<Org> {
    set o | o in orgs && IsActive(src, o, w)
  }

  lemma NextOrg(src: Sources, orgs: seq<Org>, i: nat, w: Window)
    requires i < |orgs| && forall j, k | 0 <= j < k < |orgs| :: orgs[j] != orgs[k]
    ensures
      var was := ActiveOrgs(src, orgs[..i], w);
      && orgs[i] !in was
      && ActiveOrgs(src, orgs[..i + 1], w) == if IsActive(src, orgs[i], w) then was + {orgs[i]} else was
  {
    hide IsActive;
    assert orgs[..i + 1] == orgs[..i] + [orgs[i]];
  }

  /** What was written for each organization: hourly, daily, monthly. */
  datatype Log = Log(hourly: map<Org, set<Metric>>, daily: map<Org, set<Metric>>, monthly: map<Org, set<Metric>>)

  datatype Tables = Tables(hourly: Rows, daily: Rows, monthly: Rows)

  /** What one run does to the three tables. */
  ghost predicate Ran(before: Tables, after: Tables, src: Sources, log: Log, w: Window) {
    && TierRun(before.hourly, after.hourly, Hourly, src, log.hourly, w)
    && TierRun(before.daily, after.daily, Daily, src, log.daily, w)
    && TierRun(before.monthly, after.monthly, Monthly, src, log.monthly, w)
  }

  predicate LogOf(log: Log, orgs: set<Org>) {
    log.hourly.Keys == orgs && log.daily.Keys == orgs && log.monthly.Keys == orgs
  }

  function LogPlus(x: Log, y: Log): Log {
    Log(x.hourly + y.hourly, x.daily + y.daily, x.monthly + y.monthly)
  }

  /** Every metric of these organizations reached all three tables. */
  ghost predicate Complete(log: Log) {
    forall o | o in log.hourly && o in log.daily && o in log.monthly ::
      log.hourly[o] == ALL_METRICS && log.daily[o] == ALL_METRICS && log.monthly[o] == ALL_METRICS
  }

  lemma RanTwice(a: Tables, b: Tables, c: Tables, src: Sources, x: Log, y: Log, xs: set<Org>, ys: set<Org>, w: Window)
    requires Ran(a, b, src, x, w) && Ran(b, c, src, y, w) && LogOf(x, xs) && LogOf(y, ys) && xs !! ys
    ensures Ran(a, c, src, LogPlus(x, y), w) && LogOf(LogPlus(x, y), xs + ys)
    ensures Complete(x) && Complete(y) ==> Complete(LogPlus(x, y))
  {
    hide TierRun;
    RunsJoin(a.hourly, b.hourly, c.hourly, Hourly, src, x.hourly, y.hourly, w);
    RunsJoin(a.daily, b.daily, c.daily, Daily, src, x.daily, y.daily, w);
    RunsJoin(a.monthly, b.monthly, c.monthly, Monthly, src, x.monthly, y.monthly, w);
  }

  lemma RanNothing(t: Tables, src: Sources, w: Window)
    ensures Ran(t, t, src, Log(map[], map[], map[]), w)
  {
    RunOfNothing(t.hourly, Hourly, src, w);
    RunOfNothing(t.daily, Daily, src, w);
    RunOfNothing(t.monthly, Monthly, src, w);
  }

  /** What one organization's turn writes, by the number of tiers it reached. */
  function TurnLog(o: Org, f: Fates, reached: nat): Log {
    Log(map[o := if reached > 0 then Delivered(f, Hourly) else {}],
        map[o := if reached > 1 then Delivered(f, Daily) else {}],
        map[o := if reached > 2 then Delivered(f, Monthly) else {}])
  }

  lemma FineTurnIsComplete(o: Org, f: Fates)
    requires QueryErrors(f, 8) == 0 && f.llm.Fine?
    ensures Complete(TurnLog(o, f, 3))
  {
    NoErrorsDeliverAll(f, Hourly);
    NoErrorsDeliverAll(f, Daily);
    NoErrorsDeliverAll(f, Monthly);
  }

  /** The three event tables and the counters of a run. */
  class EventMetrics {
    var hourly: Rows
    var daily: Rows
    var monthly: Rows
    var errors: nat
    var orgsProcessed: nat

    constructor ()
      ensures hourly == map[] && daily == map[] && monthly == map[] && errors == 0 && orgsProcessed == 0
    {
      hourly, daily, monthly, errors, orgsProcessed := map[], map[], map[], 0, 0;
    }

    function Now(): Tables
      reads this
    {
      Tables(hourly, daily, monthly)
    }

    /** Writes the tiers in order and stops at the first write that raises; `reached` tiers were
        written. An empty dict is not written, so it cannot raise. */
    method ProcessOrg(o: Org, src: Sources, w: Window, f: Fates) returns (reached: nat)
      requires o in src && IsOrdered(w)
      modifies this
      ensures reached <= 3 && (f.write.None? ==> reached == 3)
      ensures Ran(old(Now()), Now(), src, TurnLog(o, f, reached), w)
      ensures errors == old(errors) + ErrorsOf(f) + (if reached == 3 then 0 else 1)
      ensures orgsProcessed == old(orgsProcessed) + if reached == 3 then 1 else 0
    {
      hide Gained;
      hide TierRun;
      hide ErrorsOf;
      hide Delivered;
      var hourlyAgg := new AggDict();
      var dailyAgg := new AggDict();
      var monthlyAgg := new AggDict();
      var failed := FillDicts(o, src[o], w, f, hourlyAgg, dailyAgg, monthlyAgg);
      errors := errors + failed;
      RunOfNoMetrics(hourly, o, Hourly, src, w);
      RunOfNoMetrics(daily, o, Daily, src, w);
      RunOfNoMetrics(monthly, o, Monthly, src, w);
      OverwriteIsRun(hourly, hourlyAgg.rows, o, src, Delivered(f, Hourly), Hourly, w);
      OverwriteIsRun(daily, dailyAgg.rows, o, src, Delivered(f, Daily), Daily, w);
      OverwriteIsRun(monthly, monthlyAgg.rows, o, src, Delivered(f, Monthly), Monthly, w);
      if hourlyAgg.rows != map[] && f.write == Some(Hourly) {
        errors := errors + 1;
        return 0;
      }
      hourly := hourly + hourlyAgg.rows;
      if dailyAgg.rows != map[] && f.write == Some(Daily) {
        errors := errors + 1;
        return 1;
      }
      daily := daily + dailyAgg.rows;
      if monthlyAgg.rows != map[] && f.write == Some(Monthly) {
        errors := errors + 1;
        return 2;
      }
      monthly := monthly + monthlyAgg.rows;
      orgsProcessed := orgsProcessed + 1;
      return 3;
    }

    /** A run at `end`: every active organization is processed, the others are skipped, and if
        nothing was counted as an error every metric of every active organization was written
        to all three tables. */
    method RunAggregation(orgs: seq<Org>, src: Sources, end: nat, fates: map<Org, Fates>) returns (log: Log)
      requires HasWindow(end)
      requires forall i | 0 <= i < |orgs| :: orgs[i] in src
      requires forall i, j | 0 <= i < j < |orgs| :: orgs[i] != orgs[j]
      modifies this
      ensures Ran(old(Now()), Now(), src, log, WindowAt(end))
      ensures LogOf(log, ActiveOrgs(src, orgs, WindowAt(end)))
      ensures errors >= old(errors)
      ensures errors == old(errors) ==> Complete(log)
    {
      hide Ran;
      hide LogOf;
      hide Complete;
      hide LogPlus;
      hide IsActive;
      hide ActiveOrgs;
      hide TurnLog;
      hide QueryErrors;
      hide WindowAt;
      var w := WindowAt(end);
      assert IsOrdered(w) by {
        WindowIsOrdered(end);
      }
      log := Log(map[], map[], map[]);
      RanNothing(Now(), src, w);
      NoOrgs(src, orgs, w);
      for i := 0 to |orgs|
        invariant Ran(old(Now()), Now(), src, log, w)
        invariant LogOf(log, ActiveOrgs(src, orgs[..i], w))
        invariant errors >= old(errors)
        invariant errors == old(errors) ==> Complete(log)
      {
        var o := orgs[i];
        NextOrg(src, orgs, i, w);
        if IsActive(src, o, w) {
          var f := if o in fates then fates[o] else Fates(map[], Fine, None);
          ghost var was := Now();
          var reached := ProcessOrg(o, src, w, f);
          var turn := TurnLog(o, f, reached);
          TurnKeys(o, f, reached);
          if reached == 3 && QueryErrors(f, 8) == 0 && f.llm.Fine? {
            FineTurnIsComplete(o, f);
          }
          RanTwice(old(Now()), was, Now(), src, log, turn, ActiveOrgs(src, orgs[..i], w), {o}, w);
          log := LogPlus(log, turn);
        }
      }
      assert orgs[..|orgs|] == orgs;
    }
  }

  lemma NoOrgs(src: Sources, orgs: seq<Org>, w: Window)
    ensures LogOf(Log(map[], map[], map[]), ActiveOrgs(src, orgs[..0], w)) && Complete(Log(map[], map[], map[]))
  {
  }

  lemma TurnKeys(o: Org, f: Fates, reached: nat)
    ensures LogOf(TurnLog(o, f, reached), {o})
  {
  }

  lemma RunOfNoMetrics(rows: Rows, o: Org, tier: Tier, src: Sources, w: Window)
    ensures TierRun(rows, rows, tier, src, map[o := {}], w)
  {
  }
}
