/** The aggregation dicts of one organization: how query rows are folded into them, and that two
    queries fill the three tiers as three would. */
module MetricRollup {
  import opened MetricKind
  import opened Calendar
  import opened MetricQueries

  type Org = nat

  datatype Metric =
    | DocumentsProcessed | PagesProcessed | DeployedApiRequests | EtlPipelineExecutions
    | PromptExecutions | FailedPages | HitlReviews | HitlCompletions
    | LlmCalls | Challenges | SummarizationCalls | LlmUsage

  function KindOf(m: Metric): Kind {
    if m.PagesProcessed? || m.FailedPages? || m.LlmUsage? then Histogram else Counter
  }

  /** Which metric a column of the combined query feeds. */
  function MetricOf(f: Field): Metric {
    match f
    case Calls => LlmCalls
    case Challenged => Challenges
    case Summarized => SummarizationCalls
    case Cost => LlmUsage
  }

  const LLM_FIELDS: seq<Field> := [Calls, Challenged, Summarized, Cost]

  datatype Tier = Hourly | Daily | Monthly

  datatype Key = Key(org: Org, bucket: nat, metric: Metric, project: string, tag: string)

  function KeyOf(o: Org, b: nat, m: Metric): Key { Key(o, b, m, "default", "") }

  datatype Agg = Agg(kind: Kind, value: real, count: nat)

  type Rows = map<Key, Agg>

  /** One call of `_upsert_agg`. */
  datatype Entry = Entry(key: Key, kind: Kind, value: real)

  function Upsert(rows: Rows, e: Entry): Rows {
    var was := if e.key in rows then rows[e.key] else Agg(e.kind, 0.0, 0);
    rows[e.key := Agg(was.kind, was.value + e.value, was.count + 1)]
  }

  class AggDict {
    var rows: Rows

    constructor ()
      ensures rows == map[]
    {
      rows := map[];
    }

    method UpsertAgg(key: Key, kind: Kind, value: real)
      modifies this
      ensures rows == Upsert(old(rows), Entry(key, kind, value))
    {
      if key !in rows {
        rows := rows[key := Agg(kind, 0.0, 0)];
      }
      rows := rows[key := rows[key].(value := rows[key].value + value)];
      rows := rows[key := rows[key].(count := rows[key].count + 1)];
    }
  }

  function UpsertAll(rows: Rows, es: seq<Entry>): Rows {
    if es == [] then rows else Upsert(UpsertAll(rows, es[..|es| - 1]), es[|es| - 1])
  }

  function SumAt(es: seq<Entry>, k: Key): real {
    if es == [] then 0.0 else
      SumAt(es[..|es| - 1], k) + if es[|es| - 1].key == k then es[|es| - 1].value else 0.0
  }

  function CountAt(es: seq<Entry>, k: Key): nat {
    if es == [] then 0 else CountAt(es[..|es| - 1], k) + if es[|es| - 1].key == k then 1 else 0
  }

  /** `a` on top of what `rows` holds at `k`. */
  function Plus(rows: Rows, k: Key, a: Agg): Agg {
    if k in rows then Agg(rows[k].kind, rows[k].value + a.value, rows[k].count + a.count) else a
  }

  predicate SameAt(x: Rows, y: Rows, k: Key) {
    (k in x <==> k in y) && (k in x ==> x[k] == y[k])
  }

  predicate WellKinded(es: seq<Entry>) { forall i | 0 <= i < |es| :: es[i].kind == KindOf(es[i].key.metric) }

  /** What a batch of upserts does to one key, whatever their order. */
  lemma {:induction false} UpsertAllAt(rows: Rows, es: seq<Entry>, k: Key)
    requires WellKinded(es)
    ensures
      var after := UpsertAll(rows, es);
      if CountAt(es, k) > 0
      then k in after && after[k] == Plus(rows, k, Agg(KindOf(k.metric), SumAt(es, k), CountAt(es, k)))
      else SameAt(rows, after, k)
    ensures CountAt(es, k) == 0 ==> SumAt(es, k) == 0.0
  {
    if es != [] {
      UpsertAllAt(rows, es[..|es| - 1], k);
    }
  }

  lemma {:induction false} BatchesJoin(rows: Rows, xs: seq<Entry>, ys: seq<Entry>, k: Key)
    ensures UpsertAll(rows, xs + ys) == UpsertAll(UpsertAll(rows, xs), ys)
    ensures SumAt(xs + ys, k) == SumAt(xs, k) + SumAt(ys, k) && CountAt(xs + ys, k) == CountAt(xs, k) + CountAt(ys, k)
  {
    if ys == [] {
      assert xs + ys == xs;
    } else {
      assert (xs + ys)[..|xs + ys| - 1] == xs + ys[..|ys| - 1];
      BatchesJoin(rows, xs, ys[..|ys| - 1], k);
    }
  }

  // ---------------------------------------------------------------- from rows to entries

  /** What the callers of the roll-up pass: see `WindowIsOrdered`. */
  predicate IsOrdered(w: Window) {
    0 <= w.monthlyStart <= w.dailyStart && w.monthlyStart % DAY == 0 && w.dailyStart % DAY == 0
  }

  /** The upserts one row causes in one tier. */
  function RowEntries(tier: Tier, o: Org, m: Metric, row: Row, w: Window): seq<Entry> {
    match tier
    case Hourly => [Entry(KeyOf(o, Trunc(ByHour, row.period), m), KindOf(m), Or0(row.value))]
    case Daily =>
      if Trunc(ByDay, row.period) >= w.dailyStart
      then [Entry(KeyOf(o, Trunc(ByDay, row.period), m), KindOf(m), Or0(row.value))] else []
    case Monthly => [Entry(KeyOf(o, Trunc(ByMonth, row.period), m), KindOf(m), Or0(row.value))]
  }

  function TierEntries(tier: Tier, o: Org, m: Metric, rows: seq<Row>, w: Window): (es: seq<Entry>)
    ensures WellKinded(es)
  {
    if rows == [] then [] else
      TierEntries(tier, o, m, rows[..|rows| - 1], w) + RowEntries(tier, o, m, rows[|rows| - 1], w)
  }

  /** The two queries: by hour over the last day, by day from the start of the previous month. */
  function TierQuery(tier: Tier, ss: seq<Sample>, w: Window): seq<Row> {
    if tier.Hourly? then Query(ss, ByHour, w.hourlyStart, w.end) else Query(ss, ByDay, w.monthlyStart, w.end)
  }

  // ---------------------------------------------------------------- the reference

  function GrainOf(tier: Tier): Grain {
    match tier case Hourly => ByHour case Daily => ByDay case Monthly => ByMonth
  }

  function StartOf(tier: Tier, w: Window): int {
    match tier case Hourly => w.hourlyStart case Daily => w.dailyStart case Monthly => w.monthlyStart
  }

  predicate TierHas(ss: seq<Sample>, tier: Tier, b: nat, w: Window) {
    BucketHas(ss, GrainOf(tier), b, StartOf(tier, w), w.end)
  }

  /** The days of month `b` on which anything happened. */
  function ActiveDays(ss: seq<Sample>, b: nat, lo: int, hi: int): set<nat> {
    set s | s in ss && Hits(s, ByMonth, b, lo, hi) :: Trunc(ByDay, s.at)
  }

  /** What the tier's own query from the tier's own start would report for bucket `b`. The
      count of a monthly row is the number of its active days, any other count is 1. */
  function TierAgg(m: Metric, ss: seq<Sample>, tier: Tier, b: nat, w: Window): Agg {
    Agg(KindOf(m), BucketSum(ss, GrainOf(tier), b, StartOf(tier, w), w.end),
        if tier.Monthly? then |ActiveDays(ss, b, w.monthlyStart, w.end)| else 1)
  }

  predicate Concerns(k: Key, o: Org, srcs: map<Metric, seq<Sample>>, tier: Tier, w: Window) {
    k.metric in srcs && k == KeyOf(o, k.bucket, k.metric) && TierHas(srcs[k.metric], tier, k.bucket, w)
  }

  /** `after` is `before` with the tier's buckets of these metrics added, and nothing else. */
  ghost predicate Gained(before: Rows, after: Rows, o: Org, srcs: map<Metric, seq<Sample>>, tier: Tier, w: Window) {
    forall k: Key ::
      if Concerns(k, o, srcs, tier, w)
      then k in after && after[k] == Plus(before, k, TierAgg(k.metric, srcs[k.metric], tier, k.bucket, w))
      else SameAt(before, after, k)
  }

  lemma GainsAddUp(a: Rows, b: Rows, c: Rows, o: Org, xs: map<Metric, seq<Sample>>, ys: map<Metric, seq<Sample>>,
                   tier: Tier, w: Window)
    requires Gained(a, b, o, xs, tier, w) && Gained(b, c, o, ys, tier, w) && xs.Keys !! ys.Keys
    ensures Gained(a, c, o, xs + ys, tier, w)
  {
    hide TierHas;
    hide TierAgg;
    forall k: Key
      ensures
        if Concerns(k, o, xs + ys, tier, w)
        then k in c && c[k] == Plus(a, k, TierAgg(k.metric, (xs + ys)[k.metric], tier, k.bucket, w))
        else SameAt(a, c, k)
    {
      assert Concerns(k, o, xs + ys, tier, w) <==> Concerns(k, o, xs, tier, w) || Concerns(k, o, ys, tier, w);
      assert !(Concerns(k, o, xs, tier, w) && Concerns(k, o, ys, tier, w));
    }
  }

  // ---------------------------------------------------------------- two queries do for three

  /** `rows` holds a row per period with that period's sum. */
  predicate Reports(rows: seq<Row>, ps: seq<nat>, ss: seq<Sample>, g: Grain, lo: int, hi: int) {
    && |rows| == |ps| && Increasing(ps)
    && forall i | 0 <= i < |ps| ::
         rows[i].period == ps[i] && Or0(rows[i].value) == BucketSum(ss, g, ps[i], lo, hi) && Trunc(g, ps[i]) == ps[i]
  }

  lemma QueryReports(ss: seq<Sample>, g: Grain, lo: int, hi: int)
    ensures Reports(Query(ss, g, lo, hi), Periods(ss, g, lo, hi), ss, g, lo, hi)
  {
    hide Trunc;
    var ps := Periods(ss, g, lo, hi);
    forall i | 0 <= i < |ps|
      ensures Trunc(g, ps[i]) == ps[i]
    {
      assert ps[i] in ps;
      var s :| s in ss && Hits(s, g, ps[i], lo, hi);
      TruncTwice(g, s.at);
    }
  }

  lemma ReportsPrefix(rows: seq<Row>, ps: seq<nat>, ss: seq<Sample>, g: Grain, lo: int, hi: int)
    requires Reports(rows, ps, ss, g, lo, hi) && rows != []
    ensures Reports(rows[..|rows| - 1], ps[..|ps| - 1], ss, g, lo, hi)
    ensures ps[|ps| - 1] !in ps[..|ps| - 1] && forall p :: p in ps <==> p in ps[..|ps| - 1] || p == ps[|ps| - 1]
  {
    assert ps == ps[..|ps| - 1] + [ps[|ps| - 1]];
  }

  lemma LastEntry(es: seq<Entry>, e: Entry, k: Key)
    ensures SumAt(es + [e], k) == SumAt(es, k) + if e.key == k then e.value else 0.0
    ensures CountAt(es + [e], k) == CountAt(es, k) + if e.key == k then 1 else 0
  {
    assert (es + [e])[..|es|] == es;
  }

  lemma {:induction false} HourlyAt(o: Org, m: Metric, rows: seq<Row>, ps: seq<nat>, ss: seq<Sample>, lo: int, hi: int,
                                    w: Window, b: nat)
    requires Reports(rows, ps, ss, ByHour, lo, hi)
    ensures
      var es := TierEntries(Hourly, o, m, rows, w);
      && SumAt(es, KeyOf(o, b, m)) == (if b in ps then BucketSum(ss, ByHour, b, lo, hi) else 0.0)
      && CountAt(es, KeyOf(o, b, m)) == (if b in ps then 1 else 0)
    decreases |rows|
  {
    hide Trunc;
    hide BucketSum;
    if rows != [] {
      var n := |rows| - 1;
      ReportsPrefix(rows, ps, ss, ByHour, lo, hi);
      HourlyAt(o, m, rows[..n], ps[..n], ss, lo, hi, w, b);
      LastEntry(TierEntries(Hourly, o, m, rows[..n], w), RowEntries(Hourly, o, m, rows[n], w)[0], KeyOf(o, b, m));
    }
  }

  lemma {:induction false} DailyAt(o: Org, m: Metric, rows: seq<Row>, ps: seq<nat>, ss: seq<Sample>, lo: int, hi: int,
                                   w: Window, b: nat)
    requires Reports(rows, ps, ss, ByDay, lo, hi)
    ensures
      var es := TierEntries(Daily, o, m, rows, w);
      && SumAt(es, KeyOf(o, b, m)) == (if b in ps && b >= w.dailyStart then BucketSum(ss, ByDay, b, lo, hi) else 0.0)
      && CountAt(es, KeyOf(o, b, m)) == (if b in ps && b >= w.dailyStart then 1 else 0)
    decreases |rows|
  {
    hide Trunc;
    hide BucketSum;
    if rows != [] {
      var n := |rows| - 1;
      ReportsPrefix(rows, ps, ss, ByDay, lo, hi);
      DailyAt(o, m, rows[..n], ps[..n], ss, lo, hi, w, b);
      var es := TierEntries(Daily, o, m, rows[..n], w);
      if ps[n] >= w.dailyStart {
        LastEntry(es, RowEntries(Daily, o, m, rows[n], w)[0], KeyOf(o, b, m));
      } else {
        assert es + [] == es;
      }
    }
  }

  /** The periods among `ps` that fall in month `b`. */
  function InMonth(ps: seq<nat>, b: nat): set<nat> {
    set p | p in ps && Trunc(ByMonth, p) == b
  }

  lemma OneMorePeriod(ps: seq<nat>, b: nat)
    requires ps != [] && ps[|ps| - 1] !in ps[..|ps| - 1]
    ensures |InMonth(ps, b)| == |InMonth(ps[..|ps| - 1], b)| + if Trunc(ByMonth, ps[|ps| - 1]) == b then 1 else 0
  {
    hide Trunc;
    var p, rest := ps[|ps| - 1], ps[..|ps| - 1];
    assert ps == rest + [p];
    assert InMonth(ps, b) == InMonth(rest, b) + if Trunc(ByMonth, p) == b then {p} else {};
  }

  lemma {:induction false} MonthlyAt(o: Org, m: Metric, rows: seq<Row>, ps: seq<nat>, ss: seq<Sample>, lo: int, hi: int,
                                     w: Window, b: nat)
    requires Reports(rows, ps, ss, ByDay, lo, hi)
    ensures
      var es := TierEntries(Monthly, o, m, rows, w);
      && SumAt(es, KeyOf(o, b, m)) == DaysSum(ps, ss, b, lo, hi)
      && CountAt(es, KeyOf(o, b, m)) == |InMonth(ps, b)|
    decreases |rows|
  {
    hide Trunc;
    hide BucketSum;
    if rows != [] {
      var n := |rows| - 1;
      ReportsPrefix(rows, ps, ss, ByDay, lo, hi);
      MonthlyAt(o, m, rows[..n], ps[..n], ss, lo, hi, w, b);
      OneMorePeriod(ps, b);
      hide InMonth;
      LastEntry(TierEntries(Monthly, o, m, rows[..n], w), RowEntries(Monthly, o, m, rows[n], w)[0], KeyOf(o, b, m));
    } else {
      assert InMonth(ps, b) == {};
    }
  }

  lemma {:induction false} OnlyItsOwnKeys(tier: Tier, o: Org, m: Metric, rows: seq<Row>, w: Window, k: Key)
    requires k != KeyOf(o, k.bucket, m)
    ensures CountAt(TierEntries(tier, o, m, rows, w), k) == 0
    decreases |rows|
  {
    hide Trunc;
    if rows != [] {
      var n := |rows| - 1;
      OnlyItsOwnKeys(tier, o, m, rows[..n], w, k);
      var es, more := TierEntries(tier, o, m, rows[..n], w), RowEntries(tier, o, m, rows[n], w);
      if more == [] {
        assert es + more == es;
      } else {
        LastEntry(es, more[0], k);
        assert more == [more[0]];
      }
    }
  }

  /** The entries of one metric in one tier say, key by key, what the tier's own query would. */
  ghost predicate SaysSo(es: seq<Entry>, o: Org, m: Metric, ss: seq<Sample>, tier: Tier, b: nat, w: Window) {
    && (CountAt(es, KeyOf(o, b, m)) > 0 <==> TierHas(ss, tier, b, w))
    && (TierHas(ss, tier, b, w) ==>
          Agg(KindOf(m), SumAt(es, KeyOf(o, b, m)), CountAt(es, KeyOf(o, b, m))) == TierAgg(m, ss, tier, b, w))
  }

  lemma HourlySays(o: Org, m: Metric, ss: seq<Sample>, b: nat, w: Window)
    ensures SaysSo(TierEntries(Hourly, o, m, TierQuery(Hourly, ss, w), w), o, m, ss, Hourly, b, w)
  {
    QueryReports(ss, ByHour, w.hourlyStart, w.end);
    HourlyAt(o, m, TierQuery(Hourly, ss, w), Periods(ss, ByHour, w.hourlyStart, w.end), ss, w.hourlyStart, w.end, w, b);
  }

  lemma DayNotBefore(t: nat, start: int)
    requires start <= t && start % DAY == 0
    ensures Trunc(ByDay, t) >= start
  {
    DayAndHour(t);
    var q, r := t / DAY, start / DAY;
    assert Trunc(ByDay, t) == q * DAY && start == r * DAY;
    assert r * DAY < q * DAY + DAY;
    assert r <= q;
  }

  lemma NoDayBeforeStart(ss: seq<Sample>, b: nat, start: int, hi: int)
    requires 0 <= b < start && start % DAY == 0
    ensures !BucketHas(ss, ByDay, b, start, hi)
  {
    hide Trunc;
    forall s | s in ss && InWindow(s.at, start, hi)
      ensures Trunc(ByDay, s.at) >= start
    {
      DayNotBefore(s.at, start);
    }
  }

  /** A day is in the recent window or not as a whole, so the wide query tells all its rows. */
  lemma DailySays(o: Org, m: Metric, ss: seq<Sample>, b: nat, w: Window)
    requires IsOrdered(w)
    ensures SaysSo(TierEntries(Daily, o, m, TierQuery(Daily, ss, w), w), o, m, ss, Daily, b, w)
  {
    QueryReports(ss, ByDay, w.monthlyStart, w.end);
    DailyAt(o, m, TierQuery(Daily, ss, w), Periods(ss, ByDay, w.monthlyStart, w.end), ss, w.monthlyStart, w.end, w, b);
    if b >= w.dailyStart {
      LowerBoundBelowBucket(ss, ByDay, b, w.monthlyStart, w.dailyStart, w.end);
    } else {
      NoDayBeforeStart(ss, b, w.dailyStart, w.end);
    }
  }

  lemma ActiveDaysAre(ss: seq<Sample>, b: nat, lo: int, hi: int)
    ensures InMonth(Periods(ss, ByDay, lo, hi), b) == ActiveDays(ss, b, lo, hi)
    ensures ActiveDays(ss, b, lo, hi) != {} <==> BucketHas(ss, ByMonth, b, lo, hi)
  {
    hide Trunc;
    forall s | s in ss
      ensures Trunc(ByMonth, Trunc(ByDay, s.at)) == Trunc(ByMonth, s.at)
    {
      MonthOfItsDay(s.at);
    }
    forall p: nat
      ensures p in InMonth(Periods(ss, ByDay, lo, hi), b) <==> p in ActiveDays(ss, b, lo, hi)
    {
      if p in Periods(ss, ByDay, lo, hi) {
        var s :| s in ss && Hits(s, ByDay, p, lo, hi);
      }
      if p in ActiveDays(ss, b, lo, hi) {
        var s :| s in ss && Hits(s, ByMonth, b, lo, hi) && Trunc(ByDay, s.at) == p;
        assert Hits(s, ByDay, p, lo, hi);
      }
    }
    if BucketHas(ss, ByMonth, b, lo, hi) {
      var s :| s in ss && Hits(s, ByMonth, b, lo, hi);
      assert Trunc(ByDay, s.at) in ActiveDays(ss, b, lo, hi);
    }
    if ActiveDays(ss, b, lo, hi) != {} {
      var p :| p in ActiveDays(ss, b, lo, hi);
    }
  }

  lemma MonthlySays(o: Org, m: Metric, ss: seq<Sample>, b: nat, w: Window)
    ensures SaysSo(TierEntries(Monthly, o, m, TierQuery(Monthly, ss, w), w), o, m, ss, Monthly, b, w)
  {
    hide Trunc;
    var ps := Periods(ss, ByDay, w.monthlyStart, w.end);
    QueryReports(ss, ByDay, w.monthlyStart, w.end);
    MonthlyAt(o, m, TierQuery(Monthly, ss, w), ps, ss, w.monthlyStart, w.end, w, b);
    forall s | s in ss && InWindow(s.at, w.monthlyStart, w.end)
      ensures Trunc(ByDay, s.at) in ps
    {
      assert Hits(s, ByDay, Trunc(ByDay, s.at), w.monthlyStart, w.end);
    }
    DaysMakeMonth(ps, ss, b, w.monthlyStart, w.end);
    ActiveDaysAre(ss, b, w.monthlyStart, w.end);
  }

  lemma TierSays(tier: Tier, o: Org, m: Metric, ss: seq<Sample>, b: nat, w: Window)
    requires IsOrdered(w)
    ensures SaysSo(TierEntries(tier, o, m, TierQuery(tier, ss, w), w), o, m, ss, tier, b, w)
  {
    match tier
    case Hourly => HourlySays(o, m, ss, b, w);
    case Daily => DailySays(o, m, ss, b, w);
    case Monthly => MonthlySays(o, m, ss, b, w);
  }

  /** Folding one metric's rows into a dict adds exactly that metric's buckets of the tier. For
      the daily and the monthly tier, which share one query, it comes to the same as a query of
      their own. */
  lemma TierGains(before: Rows, o: Org, m: Metric, ss: seq<Sample>, tier: Tier, w: Window)
    requires IsOrdered(w)
    ensures Gained(before, UpsertAll(before, TierEntries(tier, o, m, TierQuery(tier, ss, w), w)), o, map[m := ss],
                   tier, w)
  {
    hide TierQuery;
    hide TierHas;
    hide TierAgg;
    hide TierEntries;
    hide UpsertAll;
    var es := TierEntries(tier, o, m, TierQuery(tier, ss, w), w);
    forall k: Key
      ensures
        if Concerns(k, o, map[m := ss], tier, w)
        then k in UpsertAll(before, es) &&
          UpsertAll(before, es)[k] == Plus(before, k, TierAgg(m, ss, tier, k.bucket, w))
        else SameAt(before, UpsertAll(before, es), k)
    {
      UpsertAllAt(before, es, k);
      if k == KeyOf(o, k.bucket, m) {
        TierSays(tier, o, m, ss, k.bucket, w);
      } else {
        OnlyItsOwnKeys(tier, o, m, TierQuery(tier, ss, w), w, k);
      }
    }
  }

  // ---------------------------------------------------------------- the combined LLM query

  function FieldEntries(tier: Tier, o: Org, fs: seq<Field>, row: CombinedRow, w: Window): (es: seq<Entry>)
    ensures WellKinded(es)
  {
    if fs == [] then [] else
      var f := fs[|fs| - 1];
      FieldEntries(tier, o, fs[..|fs| - 1], row, w) + RowEntries(tier, o, MetricOf(f),
                                                                 Row(row.period, Column(row, f)), w)
  }

  function CombinedEntries(tier: Tier, o: Org, rows: seq<CombinedRow>, w: Window): (es: seq<Entry>)
    ensures WellKinded(es)
  {
    if rows == [] then [] else
      CombinedEntries(tier, o, rows[..|rows| - 1], w) + FieldEntries(tier, o, LLM_FIELDS, rows[|rows| - 1], w)
  }

  function CombinedTierQuery(tier: Tier, us: seq<UsageRow>, w: Window): seq<CombinedRow> {
    if tier.Hourly? then CombinedQuery(us, ByHour, w.hourlyStart, w.end)
      else CombinedQuery(us, ByDay, w.monthlyStart, w.end)
  }

  /** The four metrics, each with its own samples. */
  function LlmSources(us: seq<UsageRow>): map<Metric, seq<Sample>> {
    map[LlmCalls := FieldSamples(Calls, us), Challenges := FieldSamples(Challenged, us),
        SummarizationCalls := FieldSamples(Summarized, us), LlmUsage := FieldSamples(Cost, us)]
  }

  lemma RowEntryIs(tier: Tier, o: Org, m: Metric, row: Row, w: Window)
    ensures
      var es := RowEntries(tier, o, m, row, w);
      es == [] || (es == [es[0]] && es[0].key.metric == m)
  {
    hide Trunc;
  }

  lemma NoEntries(k: Key)
    ensures SumAt([], k) == 0.0 && CountAt([], k) == 0
  {
  }

  lemma RowEntriesElsewhere(tier: Tier, o: Org, m: Metric, row: Row, w: Window, k: Key)
    requires k.metric != m
    ensures SumAt(RowEntries(tier, o, m, row, w), k) == 0.0 && CountAt(RowEntries(tier, o, m, row, w), k) == 0
  {
    RowEntryIs(tier, o, m, row, w);
    NoEntries(k);
    hide RowEntries;
    hide SumAt;
    hide CountAt;
    var es := RowEntries(tier, o, m, row, w);
    if es != [] {
      LastEntry([], es[0], k);
      assert [] + [es[0]] == [es[0]];
    }
  }

  /** Of one combined row, only the metric's own column reaches its key. */
  lemma {:induction false} FieldEntriesAt(tier: Tier, o: Org, fs: seq<Field>, row: CombinedRow, w: Window, k: Key,
                                          f: Field)
    requires k.metric == MetricOf(f) && forall i, j | 0 <= i < j < |fs| :: fs[i] != fs[j]
    ensures
      var es := FieldEntries(tier, o, fs, row, w);
      var own := RowEntries(tier, o, MetricOf(f), Row(row.period, Column(row, f)), w);
      && SumAt(es, k) == (if f in fs then SumAt(own, k) else 0.0)
      && CountAt(es, k) == (if f in fs then CountAt(own, k) else 0)
    decreases |fs|
  {
    hide RowEntries;
    if fs != [] {
      var g, rest := fs[|fs| - 1], fs[..|fs| - 1];
      assert fs == rest + [g];
      FieldEntriesAt(tier, o, rest, row, w, k, f);
      var own := RowEntries(tier, o, MetricOf(g), Row(row.period, Column(row, g)), w);
      BatchesJoin(map[], FieldEntries(tier, o, rest, row, w), own, k);
      hide SumAt;
      hide CountAt;
      hide UpsertAll;
      if g != f {
        RowEntriesElsewhere(tier, o, MetricOf(g), Row(row.period, Column(row, g)), w, k);
      }
    }
  }

  lemma {:induction false} CombinedEntriesAt(tier: Tier, o: Org, rows: seq<CombinedRow>, w: Window, k: Key, f: Field)
    requires k.metric == MetricOf(f)
    ensures
      var own := TierEntries(tier, o, MetricOf(f), Picked(rows, f), w);
      SumAt(CombinedEntries(tier, o, rows, w), k) == SumAt(own, k) &&
        CountAt(CombinedEntries(tier, o, rows, w), k) == CountAt(own, k)
    decreases |rows|
  {
    hide RowEntries;
    hide FieldEntries;
    if rows != [] {
      var n := |rows| - 1;
      CombinedEntriesAt(tier, o, rows[..n], w, k, f);
      CombinedStep(tier, o, rows, w, f);
      assert f in LLM_FIELDS;
      FieldEntriesAt(tier, o, LLM_FIELDS, rows[n], w, k, f);
      hide CombinedEntries;
      hide TierEntries;
      hide SumAt;
      hide CountAt;
      BatchesJoin(map[], CombinedEntries(tier, o, rows[..n], w), FieldEntries(tier, o, LLM_FIELDS, rows[n], w), k);
      BatchesJoin(map[], TierEntries(tier, o, MetricOf(f), Picked(rows[..n], f), w),
                  RowEntries(tier, o, MetricOf(f), Picked(rows, f)[n], w), k);
    }
  }

  /** One more row, for all four metrics and for one. */
  lemma CombinedStep(tier: Tier, o: Org, rows: seq<CombinedRow>, w: Window, f: Field)
    requires rows != []
    ensures
      var n := |rows| - 1;
      && CombinedEntries(tier, o, rows, w) ==
         CombinedEntries(tier, o, rows[..n], w) + FieldEntries(tier, o, LLM_FIELDS, rows[n], w)
      && |Picked(rows, f)| == |rows| && Picked(rows, f)[n] == Row(rows[n].period, Column(rows[n], f))
      && TierEntries(tier, o, MetricOf(f), Picked(rows, f), w) ==
         TierEntries(tier, o, MetricOf(f), Picked(rows[..n], f), w)
         + RowEntries(tier, o, MetricOf(f), Picked(rows, f)[n], w)
  {
    hide RowEntries;
    hide FieldEntries;
    assert Picked(rows, f)[..|rows| - 1] == Picked(rows[..|rows| - 1], f);
  }

  lemma {:induction false} CombinedOnlyLlm(tier: Tier, o: Org, rows: seq<CombinedRow>, w: Window, k: Key)
    requires forall f: Field :: k.metric != MetricOf(f)
    ensures CountAt(CombinedEntries(tier, o, rows, w), k) == 0
    decreases |rows|
  {
    hide RowEntries;
    if rows != [] {
      var n := |rows| - 1;
      CombinedOnlyLlm(tier, o, rows[..n], w, k);
      FieldsOnlyLlm(tier, o, LLM_FIELDS, rows[n], w, k);
      BatchesJoin(map[], CombinedEntries(tier, o, rows[..n], w), FieldEntries(tier, o, LLM_FIELDS, rows[n], w), k);
    }
  }

  lemma {:induction false} FieldsOnlyLlm(tier: Tier, o: Org, fs: seq<Field>, row: CombinedRow, w: Window, k: Key)
    requires forall f: Field :: k.metric != MetricOf(f)
    ensures CountAt(FieldEntries(tier, o, fs, row, w), k) == 0
    decreases |fs|
  {
    hide RowEntries;
    if fs != [] {
      var f := fs[|fs| - 1];
      FieldsOnlyLlm(tier, o, fs[..|fs| - 1], row, w, k);
      RowEntriesElsewhere(tier, o, MetricOf(f), Row(row.period, Column(row, f)), w, k);
      BatchesJoin(map[], FieldEntries(tier, o, fs[..|fs| - 1], row, w),
                  RowEntries(tier, o, MetricOf(f), Row(row.period, Column(row, f)), w), k);
    }
  }

  lemma CombinedSays(tier: Tier, o: Org, us: seq<UsageRow>, w: Window, b: nat, f: Field)
    requires IsOrdered(w)
    ensures SaysSo(CombinedEntries(tier, o, CombinedTierQuery(tier, us, w), w), o, MetricOf(f), FieldSamples(f, us),
                   tier, b, w)
  {
    hide Trunc;
    hide TierEntries;
    hide CombinedEntries;
    CombinedEntriesAt(tier, o, CombinedTierQuery(tier, us, w), w, KeyOf(o, b, MetricOf(f)), f);
    CombinedIsEach(us, f, if tier.Hourly? then ByHour else ByDay,
                   if tier.Hourly? then w.hourlyStart else w.monthlyStart, w.end);
    TierSays(tier, o, MetricOf(f), FieldSamples(f, us), b, w);
  }

  lemma LlmSourceOf(us: seq<UsageRow>, f: Field)
    ensures MetricOf(f) in LlmSources(us) && LlmSources(us)[MetricOf(f)] == FieldSamples(f, us)
  {
  }

  lemma NoLlmSource(us: seq<UsageRow>, m: Metric)
    requires forall f: Field :: m != MetricOf(f)
    ensures m !in LlmSources(us)
  {
    assert m != MetricOf(Calls) && m != MetricOf(Challenged) && m != MetricOf(Summarized) && m != MetricOf(Cost);
  }

  /** One combined query per grain does what four metrics on their own would. */
  lemma CombinedGains(before: Rows, o: Org, us: seq<UsageRow>, tier: Tier, w: Window)
    requires IsOrdered(w)
    ensures Gained(before, UpsertAll(before, CombinedEntries(tier, o, CombinedTierQuery(tier, us, w), w)), o,
                   LlmSources(us), tier, w)
  {
    hide CombinedTierQuery;
    hide TierHas;
    hide TierAgg;
    hide CombinedEntries;
    hide UpsertAll;
    hide LlmSources;
    var es := CombinedEntries(tier, o, CombinedTierQuery(tier, us, w), w);
    forall k: Key
      ensures
        if Concerns(k, o, LlmSources(us), tier, w)
        then k in UpsertAll(before, es)
          && UpsertAll(before, es)[k] == Plus(before, k, TierAgg(k.metric, LlmSources(us)[k.metric], tier, k.bucket, w))
        else SameAt(before, UpsertAll(before, es), k)
    {
      UpsertAllAt(before, es, k);
      if f: Field :| k.metric == MetricOf(f) {
        LlmSourceOf(us, f);
        CombinedSays(tier, o, us, w, k.bucket, f);
        CombinedEntriesAt(tier, o, CombinedTierQuery(tier, us, w), w, k, f);
        if k != KeyOf(o, k.bucket, k.metric) {
          OnlyItsOwnKeys(tier, o, MetricOf(f), Picked(CombinedTierQuery(tier, us, w), f), w, k);
        }
      } else {
        NoLlmSource(us, k.metric);
        CombinedOnlyLlm(tier, o, CombinedTierQuery(tier, us, w), w, k);
      }
    }
  }
}
