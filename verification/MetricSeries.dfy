/** The in-memory aggregation behind the series endpoint: records are grouped into points, points
    into series. */
module MetricSeries {
  import opened MetricKind
  import opened Calendar
  import opened Options
  import opened BucketCache
  import opened GroupBy
  import opened Sorting

  datatype Granularity = PerHour | PerDay | PerWeek

  /** Day 0 is a Monday. */
  function Period(g: Granularity, t: nat): nat {
    match g
    case PerHour => Trunc(ByHour, t)
    case PerDay => Trunc(ByDay, t)
    case PerWeek => (DayOf(t) - DayOf(t) % 7) * DAY
  }

  datatype SeriesKey = SeriesKey(metric: string, project: string, tag: string)

  datatype PointKey = PointKey(period: nat, series: SeriesKey)

  function SeriesOf(r: Record): SeriesKey { SeriesKey(r.metric, r.project, r.tag) }

  function PointOf(g: Granularity): Record -> PointKey {
    (r: Record) => PointKey(Period(g, r.at), SeriesOf(r))
  }

  function ValueOf(r: Record): real { if r.value.Some? then r.value.value else 0.0 }
  function CountOf(r: Record): nat { if r.count.Some? then r.count.value else 0 }
  function RealCount(r: Record): real { CountOf(r) as real }

  datatype Point = Point(value: real, count: nat, kind: Kind)

  datatype Row = Row(key: PointKey, point: Point)

  /** The kind of a group is the kind of its last record. */
  function LastKind<K(==)>(rs: seq<Record>, key: Record -> K, k: K): Kind {
    if rs == [] then Counter
    else if key(rs[|rs| - 1]) == k then rs[|rs| - 1].kind
    else LastKind(rs[..|rs| - 1], key, k)
  }

  /** What the records say about a point. */
  ghost predicate IsPoint(p: Point, rs: seq<Record>, g: Granularity, k: PointKey) {
    && p.value == GroupSum(rs, PointOf(g), ValueOf, k)
    && p.count as real == GroupSum(rs, PointOf(g), RealCount, k)
    && p.kind == LastKind(rs, PointOf(g), k)
  }

  method GroupRecords(records: seq<Record>, g: Granularity)
    returns (grouped: map<PointKey, Point>, order: seq<PointKey>)
    ensures Distinct(order) && forall k :: k in grouped <==> k in order
    ensures forall k :: k in grouped <==> HasKey(records, PointOf(g), k)
    ensures forall k | k in grouped :: IsPoint(grouped[k], records, g, k)
  {
    hide Period;
    grouped, order := map[], [];
    NoPoints(records, g);
    for i := 0 to |records|
      invariant Distinct(order) && forall k :: k in grouped <==> k in order
      invariant forall k :: k in grouped <==> HasKey(records[..i], PointOf(g), k)
      invariant forall k :: IsPoint(if k in grouped then grouped[k] else Point(0.0, 0, Counter), records[..i], g, k)
    {
      var r := records[i];
      var key := PointOf(g)(r);
      NextPoint(records, i, g);
      ghost var was := grouped;
      if key !in grouped {
        grouped, order := grouped[key := Point(0.0, 0, Counter)], order + [key];
      }
      grouped := grouped[key := Point(grouped[key].value + ValueOf(r), grouped[key].count + CountOf(r), r.kind)];
    }
    assert records[..|records|] == records;
  }

  lemma NoPoints(records: seq<Record>, g: Granularity)
    ensures forall k :: IsPoint(Point(0.0, 0, Counter), records[..0], g, k) && !HasKey(records[..0], PointOf(g), k)
  {
  }

  /** What one more record does to every point. */
  lemma NextPoint(records: seq<Record>, i: nat, g: Granularity)
    requires i < |records|
    ensures forall k :: HasKey(records[..i + 1], PointOf(g), k) <==>
      HasKey(records[..i], PointOf(g), k) || PointOf(g)(records[i]) == k
    ensures forall p, k | IsPoint(p, records[..i], g, k) ::
      var r := records[i];
      var more := Point(p.value + ValueOf(r), p.count + CountOf(r), r.kind);
      IsPoint(if PointOf(g)(r) == k then more else p, records[..i + 1], g, k)
  {
    assert records[..i + 1][..i] == records[..i];
    forall k
      ensures HasKey(records[..i + 1], PointOf(g), k) <==>
        HasKey(records[..i], PointOf(g), k) || PointOf(g)(records[i]) == k
    {
      NextHasKeyAt(records, i, PointOf(g), k);
    }
  }

  // ---------------------------------------------------------------- the rows, in order

  function RowLe(): (Row, Row) -> bool {
    (x: Row, y: Row) =>
      x.key.period < y.key.period
      || (x.key.period == y.key.period && StringLe(x.key.series.metric, y.key.series.metric))
  }

  lemma RowLeIsOrder()
    ensures IsOrder(RowLe())
  {
    forall x: Row, y: Row
      ensures RowLe()(x, y) || RowLe()(y, x)
    {
      StringOrder(x.key.series.metric, y.key.series.metric, "");
    }
    forall x: Row, y: Row, z: Row | RowLe()(x, y) && RowLe()(y, z)
      ensures RowLe()(x, z)
    {
      StringOrder(x.key.series.metric, y.key.series.metric, z.key.series.metric);
    }
  }

  function RowKey(x: Row): PointKey { x.key }
  function RowSeries(x: Row): SeriesKey { x.key.series }
  function RowValue(x: Row): real { x.point.value }
  function RowCount(x: Row): real { x.point.count as real }

  function KeysOf(data: seq<Row>): (ks: seq<PointKey>)
    ensures |ks| == |data| && forall i | 0 <= i < |data| :: ks[i] == data[i].key
  {
    seq(|data|, i requires 0 <= i < |data| => data[i].key)
  }

  /** One row per point, each with its group's sums, by time and then by metric name. */
  ghost predicate IsSeriesData(data: seq<Row>, records: seq<Record>, g: Granularity) {
    && Distinct(KeysOf(data))
    && (forall k :: k in KeysOf(data) <==> HasKey(records, PointOf(g), k))
    && (forall i | 0 <= i < |data| :: IsPoint(data[i].point, records, g, data[i].key))
    && SortedBy(RowLe(), data)
  }

  method SeriesData(records: seq<Record>, g: Granularity) returns (data: seq<Row>)
    ensures IsSeriesData(data, records, g)
  {
    hide HasKey;
    hide IsPoint;
    var grouped, order := GroupRecords(records, g);
    var rows := seq(|order|, i requires 0 <= i < |order| => Row(order[i], grouped[order[i]]));
    data := Sort(RowLe(), rows);
    RowLeIsOrder();
    SortSorts(RowLe(), rows);
    SortPermutes(RowLe(), rows);
    RowsStayDistinct(rows, data, order);
    forall i | 0 <= i < |data|
      ensures IsPoint(data[i].point, records, g, data[i].key)
    {
      assert data[i] in rows;
    }
  }

  lemma RowsStayDistinct(rows: seq<Row>, data: seq<Row>, order: seq<PointKey>)
    requires multiset(data) == multiset(rows) && Distinct(order)
    requires |rows| == |order| && forall i | 0 <= i < |rows| :: rows[i].key == order[i]
    ensures Distinct(KeysOf(data)) && (forall k :: k in KeysOf(data) <==> k in order)
    ensures forall x :: x in data <==> x in rows
  {
    PermutationOfDistinct(rows, data);
    forall i, j | 0 <= i < j < |data|
      ensures data[i].key != data[j].key
    {
      assert data[i] in rows && data[j] in rows && data[i] != data[j];
    }
    forall k
      ensures k in KeysOf(data) <==> k in order
    {
      if k in KeysOf(data) {
        var i :| 0 <= i < |data| && KeysOf(data)[i] == k;
        assert data[i] in rows;
      }
      if k in order {
        var i :| 0 <= i < |order| && order[i] == k;
        assert rows[i] in data;
        var j :| 0 <= j < |data| && data[j] == rows[i];
        assert KeysOf(data)[j] == k;
      }
    }
  }

  /** Adding up rows is adding up groups. */
  lemma {:induction false} RowsAreGroups(data: seq<Row>, records: seq<Record>, g: Granularity, p: PointKey -> bool)
    requires forall i | 0 <= i < |data| :: IsPoint(data[i].point, records, g, data[i].key)
    ensures SumWhere(data, RowKey, RowValue, p) == GroupsWhere(KeysOf(data), records, PointOf(g), ValueOf, p)
    ensures SumWhere(data, RowKey, RowCount, p) == GroupsWhere(KeysOf(data), records, PointOf(g), RealCount, p)
  {
    if data != [] {
      RowsAreGroups(data[..|data| - 1], records, g, p);
      assert KeysOf(data)[..|data| - 1] == KeysOf(data[..|data| - 1]);
    }
  }

  /** Whatever is selected by point, the rows add up to the records. */
  lemma DataAddsUp(data: seq<Row>, records: seq<Record>, g: Granularity, p: PointKey -> bool)
    requires IsSeriesData(data, records, g)
    ensures SumWhere(data, RowKey, RowValue, p) == SumWhere(records, PointOf(g), ValueOf, p)
    ensures SumWhere(data, RowKey, RowCount, p) == SumWhere(records, PointOf(g), RealCount, p)
  {
    RowsAreGroups(data, records, g, p);
    forall i | 0 <= i < |records|
      ensures PointOf(g)(records[i]) in KeysOf(data)
    {
      assert HasKey(records, PointOf(g), PointOf(g)(records[i]));
    }
    GroupsAddUp(KeysOf(data), records, PointOf(g), ValueOf, p);
    GroupsAddUp(KeysOf(data), records, PointOf(g), RealCount, p);
  }

  // ---------------------------------------------------------------- weeks and days

  function InWeek(w: nat, s: SeriesKey): PointKey -> bool {
    (k: PointKey) => Period(PerWeek, k.period) == w && k.series == s
  }

  lemma WeekOfDay(t: nat)
    ensures Period(PerWeek, Period(PerDay, t)) == Period(PerWeek, t)
  {
    DayAndHour(t);
  }

  /** Each weekly point is the sum of the daily points of that week. */
  lemma WeekIsItsDays(weeks: seq<Row>, days: seq<Row>, records: seq<Record>, i: nat)
    requires IsSeriesData(weeks, records, PerWeek) && IsSeriesData(days, records, PerDay) && i < |weeks|
    ensures
      var k := weeks[i].key;
      && weeks[i].point.value == SumWhere(days, RowKey, RowValue, InWeek(k.period, k.series))
      && weeks[i].point.count as real == SumWhere(days, RowKey, RowCount, InWeek(k.period, k.series))
  {
    var k := weeks[i].key;
    var p := InWeek(k.period, k.series);
    DataAddsUp(days, records, PerDay, p);
    assert IsPoint(weeks[i].point, records, PerWeek, k);
    forall j | 0 <= j < |records|
      ensures p(PointOf(PerDay)(records[j])) <==> PointOf(PerWeek)(records[j]) == k
    {
      WeekOfDay(records[j].at);
    }
    CoarserKey(records, PointOf(PerDay), PointOf(PerWeek), ValueOf, p, k);
    CoarserKey(records, PointOf(PerDay), PointOf(PerWeek), RealCount, p, k);
  }

  // ---------------------------------------------------------------- series

  datatype Series = Series(kind: Kind, points: seq<Row>, totalValue: real, totalCount: nat)

  /** The rows of one series, in order. */
  function PointsOf(data: seq<Row>, s: SeriesKey): seq<Row> {
    if data == [] then [] else
      var x := data[|data| - 1];
      PointsOf(data[..|data| - 1], s) + if x.key.series == s then [x] else []
  }

  ghost predicate IsSeries(x: Series, data: seq<Row>, s: SeriesKey) {
    && x.points == PointsOf(data, s)
    && x.totalValue == GroupSum(data, RowSeries, RowValue, s)
    && x.totalCount as real == GroupSum(data, RowSeries, RowCount, s)
    && (x.points != [] ==> x.kind == x.points[|x.points| - 1].point.kind)
  }

  const NO_SERIES: Series := Series(Counter, [], 0.0, 0)

  method BuildSeries(data: seq<Row>) returns (series: map<SeriesKey, Series>, order: seq<SeriesKey>)
    ensures Distinct(order) && forall s :: s in series <==> s in order
    ensures forall s :: s in series <==> HasKey(data, RowSeries, s)
    ensures forall s | s in series :: IsSeries(series[s], data, s)
  {
    hide IsSeries;
    hide HasKey;
    series, order := map[], [];
    NoSeriesYet(data);
    for i := 0 to |data|
      invariant Distinct(order) && forall s :: s in series <==> s in order
      invariant forall s :: s in series <==> HasKey(data[..i], RowSeries, s)
      invariant forall s :: IsSeries(if s in series then series[s] else NO_SERIES, data[..i], s)
    {
      var row := data[i];
      var key := row.key.series;
      NextRow(data, i);
      if key !in series {
        series, order := series[key := NO_SERIES], order + [key];
      }
      var was := series[key];
      series := series[key := Series(row.point.kind, was.points + [row], was.totalValue + row.point.value,
                                     was.totalCount + row.point.count)];
    }
    assert data[..|data|] == data;
  }

  lemma NoSeriesYet(data: seq<Row>)
    ensures forall s :: IsSeries(NO_SERIES, data[..0], s) && !HasKey(data[..0], RowSeries, s)
  {
  }

  function Extended(x: Series, row: Row): Series {
    Series(row.point.kind, x.points + [row], x.totalValue + row.point.value, x.totalCount + row.point.count)
  }

  lemma NextRow(data: seq<Row>, i: nat)
    requires i < |data|
    ensures forall s :: HasKey(data[..i + 1], RowSeries, s) <==>
      HasKey(data[..i], RowSeries, s) || data[i].key.series == s
    ensures forall x, s | IsSeries(x, data[..i], s) ::
      IsSeries(if data[i].key.series == s then Extended(x, data[i]) else x, data[..i + 1], s)
  {
    assert data[..i + 1][..i] == data[..i];
    forall s
      ensures HasKey(data[..i + 1], RowSeries, s) <==> HasKey(data[..i], RowSeries, s) || data[i].key.series == s
    {
      NextHasKeyAt(data, i, RowSeries, s);
    }
  }

  function InSeries(s: SeriesKey): PointKey -> bool { (k: PointKey) => k.series == s }

  /** The total of a series is the total of its records. */
  lemma SeriesTotals(data: seq<Row>, records: seq<Record>, g: Granularity, s: SeriesKey)
    requires IsSeriesData(data, records, g)
    ensures GroupSum(data, RowSeries, RowValue, s) == GroupSum(records, SeriesOf, ValueOf, s)
    ensures GroupSum(data, RowSeries, RowCount, s) == GroupSum(records, SeriesOf, RealCount, s)
    ensures HasKey(data, RowSeries, s) <==> HasKey(records, SeriesOf, s)
  {
    DataAddsUp(data, records, g, InSeries(s));
    CoarserKey(data, RowKey, RowSeries, RowValue, InSeries(s), s);
    CoarserKey(data, RowKey, RowSeries, RowCount, InSeries(s), s);
    CoarserKey(records, PointOf(g), SeriesOf, ValueOf, InSeries(s), s);
    CoarserKey(records, PointOf(g), SeriesOf, RealCount, InSeries(s), s);
    SeriesPresent(data, records, g, s);
  }

  lemma SeriesPresent(data: seq<Row>, records: seq<Record>, g: Granularity, s: SeriesKey)
    requires forall k :: k in KeysOf(data) <==> HasKey(records, PointOf(g), k)
    ensures HasKey(data, RowSeries, s) <==> HasKey(records, SeriesOf, s)
  {
    if HasKey(data, RowSeries, s) {
      var i :| 0 <= i < |data| && RowSeries(data[i]) == s;
      assert KeysOf(data)[i] in KeysOf(data);
      var j :| 0 <= j < |records| && PointOf(g)(records[j]) == data[i].key;
      assert SeriesOf(records[j]) == s;
    }
    if HasKey(records, SeriesOf, s) {
      var j :| 0 <= j < |records| && SeriesOf(records[j]) == s;
      assert HasKey(records, PointOf(g), PointOf(g)(records[j]));
      var i :| 0 <= i < |data| && KeysOf(data)[i] == PointOf(g)(records[j]);
      assert RowSeries(data[i]) == s;
    }
  }

  /** The points of a series come in strictly increasing time. */
  lemma {:induction false} PointsIncrease(data: seq<Row>, s: SeriesKey)
    requires SortedBy(RowLe(), data) && Distinct(KeysOf(data))
    ensures forall x | x in PointsOf(data, s) :: x in data && x.key.series == s
    ensures forall i, j | 0 <= i < j < |PointsOf(data, s)| ::
      PointsOf(data, s)[i].key.period < PointsOf(data, s)[j].key.period
  {
    if data != [] {
      var x, rest := data[|data| - 1], data[..|data| - 1];
      assert KeysOf(rest) == KeysOf(data)[..|data| - 1];
      PointsIncrease(rest, s);
      forall y | y in PointsOf(rest, s) && x.key.series == s
        ensures y.key.period < x.key.period
      {
        var i :| 0 <= i < |rest| && rest[i] == y;
        assert RowLe()(data[i], x) && KeysOf(data)[i] != KeysOf(data)[|data| - 1];
      }
    }
  }

  function TotalsOf(series: map<SeriesKey, Series>, order: seq<SeriesKey>): real
    requires forall s | s in order :: s in series
  {
    if order == [] then 0.0 else TotalsOf(series, order[..|order| - 1]) + series[order[|order| - 1]].totalValue
  }

  lemma {:induction false} TotalsAreGroups(series: map<SeriesKey, Series>, order: seq<SeriesKey>, records: seq<Record>)
    requires forall s | s in order :: s in series && series[s].totalValue == GroupSum(records, SeriesOf, ValueOf, s)
    ensures TotalsOf(series, order) == GroupsWhere(order, records, SeriesOf, ValueOf, (s: SeriesKey) => true)
  {
    if order != [] {
      TotalsAreGroups(series, order[..|order| - 1], records);
    }
  }

  /** The whole endpoint: one series per metric, project and tag that occurs, holding that series'
      totals, its points in time order, and together the totals of all records. */
  method SeriesFromRecords(records: seq<Record>, g: Granularity)
    returns (data: seq<Row>, series: map<SeriesKey, Series>, order: seq<SeriesKey>)
    ensures IsSeriesData(data, records, g)
    ensures Distinct(order) && forall s :: s in series <==> s in order
    ensures forall s :: s in series <==> HasKey(records, SeriesOf, s)
    ensures forall s | s in series ::
      && series[s].points == PointsOf(data, s)
      && series[s].totalValue == GroupSum(records, SeriesOf, ValueOf, s)
      && series[s].totalCount as real == GroupSum(records, SeriesOf, RealCount, s)
    ensures TotalsOf(series, order) == Sum(records, ValueOf)
  {
    hide IsSeriesData;
    hide HasKey;
    data := SeriesData(records, g);
    series, order := BuildSeries(data);
    forall s: SeriesKey
      ensures GroupSum(data, RowSeries, RowValue, s) == GroupSum(records, SeriesOf, ValueOf, s)
      ensures GroupSum(data, RowSeries, RowCount, s) == GroupSum(records, SeriesOf, RealCount, s)
      ensures HasKey(data, RowSeries, s) <==> HasKey(records, SeriesOf, s)
    {
      SeriesTotals(data, records, g, s);
    }
    ConserveTotals(series, order, records);
  }

  lemma ConserveTotals(series: map<SeriesKey, Series>, order: seq<SeriesKey>, records: seq<Record>)
    requires Distinct(order) && forall s :: s in series <==> s in order
    requires forall s :: s in series <==> HasKey(records, SeriesOf, s)
    requires forall s | s in series :: series[s].totalValue == GroupSum(records, SeriesOf, ValueOf, s)
    ensures TotalsOf(series, order) == Sum(records, ValueOf)
  {
    TotalsAreGroups(series, order, records);
    forall i | 0 <= i < |records|
      ensures SeriesOf(records[i]) in order
    {
      assert HasKey(records, SeriesOf, SeriesOf(records[i]));
    }
    GroupsAddUp(order, records, SeriesOf, ValueOf, (s: SeriesKey) => true);
    AllRows(records, SeriesOf, ValueOf);
  }

  // ---------------------------------------------------------------- the rows, one by one

  /** The start of the hour, of the day, or of the Monday on or before it: day 0 is a Monday. */
  function StartOfPeriod(g: Granularity, t: nat): nat {
    match g
    case PerHour => t - t % 3_600_000_000
    case PerDay => t - t % 86_400_000_000
    case PerWeek => t - t % 604_800_000_000
  }

  lemma PeriodIsStart(g: Granularity, t: nat)
    ensures Period(g, t) == StartOfPeriod(g, t)
  {
    if g.PerWeek? {
      var n := t / DAY;
      assert t == n * DAY + t % DAY;
      assert t == (n - n % 7) * DAY + (n % 7 * DAY + t % DAY);
      WeekRemainder(t, n / 7, n % 7 * DAY + t % DAY);
    }
  }

  lemma WeekRemainder(t: nat, q: nat, r: nat)
    requires t == q * 604_800_000_000 + r && r < 604_800_000_000
    ensures t % 604_800_000_000 == r
  {
  }

  /** Whether a record belongs to a point. */
  predicate BelongsTo(r: Record, g: Granularity, k: PointKey) {
    && k.period == StartOfPeriod(g, r.at)
    && r.metric == k.series.metric && r.project == k.series.project && r.tag == k.series.tag
  }

  /** A row adds up the values and the counts of the records that start in its period and carry its
      metric, project and tag, nulls as zero; its kind is that of the last of them. */
  lemma RowIsDirect(data: seq<Row>, records: seq<Record>, g: Granularity, i: nat)
    requires IsSeriesData(data, records, g) && i < |data|
    ensures
      var k, mine := data[i].key, (r: Record) => BelongsTo(r, g, data[i].key);
      && data[i].point.value == SumIf(records, mine, (r: Record) => match r.value case Some(x) => x case None => 0.0)
      && data[i].point.count as real ==
         SumIf(records, mine, (r: Record) => match r.count case Some(n) => n as real case None => 0.0)
      && exists j | 0 <= j < |records| ::
           && BelongsTo(records[j], g, k) && data[i].point.kind == records[j].kind
           && forall l | j < l < |records| :: !BelongsTo(records[l], g, k)
  {
    var k, mine := data[i].key, (r: Record) => BelongsTo(r, g, data[i].key);
    assert IsPoint(data[i].point, records, g, k);
    assert KeysOf(data)[i] == k && HasKey(records, PointOf(g), k);
    hide Period;
    hide StartOfPeriod;
    forall r: Record
      ensures PointOf(g)(r) == k <==> mine(r)
    {
      PeriodIsStart(g, r.at);
    }
    GroupIsSumIf(records, PointOf(g), ValueOf, k, mine,
                 (r: Record) => match r.value case Some(x) => x case None => 0.0);
    GroupIsSumIf(records, PointOf(g), RealCount, k, mine,
                 (r: Record) => match r.count case Some(n) => n as real case None => 0.0);
    LastKindIs(records, PointOf(g), k);
  }

  lemma {:induction false} LastKindIs<K>(rs: seq<Record>, key: Record -> K, k: K)
    requires HasKey(rs, key, k)
    ensures exists j | 0 <= j < |rs| ::
      key(rs[j]) == k && LastKind(rs, key, k) == rs[j].kind && forall l | j < l < |rs| :: key(rs[l]) != k
  {
    var n := |rs| - 1;
    if key(rs[n]) != k {
      var rest := rs[..n];
      var i :| 0 <= i < |rs| && key(rs[i]) == k;
      assert key(rest[i]) == k;
      LastKindIs(rest, key, k);
      var j :| 0 <= j < |rest| && key(rest[j]) == k && LastKind(rest, key, k) == rest[j].kind
        && forall l | j < l < |rest| :: key(rest[l]) != k;
      assert key(rs[j]) == k && LastKind(rs, key, k) == rs[j].kind;
      forall l | j < l < |rs|
        ensures key(rs[l]) != k
      {
        assert l < n ==> rs[l] == rest[l];
      }
    }
  }

  /** The rows come by time, and at one time by metric name. */
  lemma RowsAreInOrder(data: seq<Row>, records: seq<Record>, g: Granularity, i: nat, j: nat)
    requires IsSeriesData(data, records, g) && i < j < |data|
    ensures
      var x, y := data[i].key, data[j].key;
      x.period < y.period || (x.period == y.period && StringLe(x.series.metric, y.series.metric))
  {
    assert RowLe()(data[i], data[j]);
  }
}
