/** The hourly bucket cache in front of the metrics table: what a fetch returns, and how old it
    can be, over any history of fetches, table changes and evictions. */
module BucketCache {
  import opened MetricKind
  import opened Calendar
  import opened Options
  import opened TimeBuckets
  import opened BucketKeys
  import opened GroupBy

  datatype Record = Record(metric: string, kind: Kind, value: Option<real>, count: Option<nat>,
                           project: string, tag: string, at: nat)

  /** `project` "" and `tag` `None` do not filter. */
  datatype Filter = Filter(project: string, tag: Option<string>)

  predicate Passes(r: Record, metric: string, f: Filter) {
    && (metric == "" || r.metric == metric)
    && (f.project == "" || r.project == f.project)
    && (f.tag.None? || r.tag == f.tag.value)
  }

  /** The rows with `lo <= at < hi` that pass, in table order. */
  function Select(table: seq<Record>, metric: string, f: Filter, lo: int, hi: int): seq<Record> {
    if table == [] then [] else
      var r := table[|table| - 1];
      Select(table[..|table| - 1], metric, f, lo, hi) + if Passes(r, metric, f) && lo <= r.at < hi then [r] else []
  }

  /** The reference: what the table holds for bucket `b`. */
  function Content(table: seq<Record>, metric: string, f: Filter, b: nat): seq<Record> {
    Select(table, metric, f, b, b + HOUR)
  }

  // ---------------------------------------------------------------- the cache

  datatype Payload = Records(records: seq<Record>) | Garbage

  datatype Slot = Slot(payload: Payload, until: nat)

  type Cache = map<string, Slot>

  /** What a lookup finds: an entry that has not expired and can be parsed. */
  function Lookup(cache: Cache, now: nat, key: string): Option<seq<Record>> {
    if key in cache && now < cache[key].until && cache[key].payload.Records? then Some(cache[key].payload.records)
    else None
  }

  predicate SameSlot(x: Cache, y: Cache, key: string) {
    (key in x <==> key in y) && (key in x ==> x[key] == y[key])
  }

  datatype Ttls = Ttls(current: nat, historical: nat)

  function TtlForBucket(ttls: Ttls, b: nat, now: nat): nat {
    if b >= Trunc(ByHour, now) then ttls.current else ttls.historical
  }

  predicate IsBucket(b: nat, start: nat, end: int) {
    IsAligned(ByHour, b) && Trunc(ByHour, start) <= b <= end
  }

  function HourKey(org: string, b: nat, metric: string): string {
    BuildBucketKey(org, ByHour, b, metric)
  }

  lemma HourKeysDiffer(org: string, b: nat, m: string, c: nat, n: string)
    requires Without(org, ':') && IsAligned(ByHour, b) && IsAligned(ByHour, c) && (b != c || m != n)
    ensures HourKey(org, b, m) != HourKey(org, c, n)
  {
    if HourKey(org, b, m) == HourKey(org, c, n) {
      KeysAreInjective(org, ByHour, b, m, org, ByHour, c, n);
    }
  }

  // ---------------------------------------------------------------- putting records into buckets

  /** The records of bucket `b` among `rs`. */
  function InBucket(rs: seq<Record>, b: nat): seq<Record> {
    if rs == [] then [] else
      var r := rs[|rs| - 1];
      InBucket(rs[..|rs| - 1], b) + if Trunc(ByHour, r.at) == b then [r] else []
  }

  lemma HourSpan(t: nat, b: nat)
    requires IsAligned(ByHour, b)
    ensures Trunc(ByHour, t) == b <==> b <= t < b + HOUR
  {
    DayAndHour(t);
    TruncTwice(ByHour, t);
    HourGap(b, Trunc(ByHour, t));
    HourGap(Trunc(ByHour, t), b);
  }

  /** One wide query, split by hour, gives each bucket what its own query would. */
  lemma {:induction false} SplitIsContent(table: seq<Record>, metric: string, f: Filter, lo: nat, hi: int, b: nat)
    requires IsAligned(ByHour, b) && lo <= b && b + HOUR <= hi
    ensures InBucket(Select(table, metric, f, lo, hi), b) == Content(table, metric, f, b)
  {
    hide Trunc;
    if table != [] {
      var r, rest := table[|table| - 1], table[..|table| - 1];
      SplitIsContent(rest, metric, f, lo, hi, b);
      HourSpan(r.at, b);
      var wide := Select(rest, metric, f, lo, hi);
      if Passes(r, metric, f) && lo <= r.at < hi {
        assert (wide + [r])[..|wide|] == wide;
      } else {
        assert wide + [] == wide;
      }
    }
  }

  /** Concatenate the parts in some order of their buckets. */
  function Concat(parts: map<nat, seq<Record>>, order: seq<nat>): seq<Record>
    requires forall b | b in order :: b in parts
  {
    if order == [] then [] else Concat(parts, order[..|order| - 1]) + parts[order[|order| - 1]]
  }

  /** The rows of the given buckets, in table order. */
  function Rows(table: seq<Record>, metric: string, f: Filter, buckets: set<nat>): seq<Record> {
    if table == [] then [] else
      var r := table[|table| - 1];
      Rows(table[..|table| - 1], metric, f, buckets)
        + if Passes(r, metric, f) && Trunc(ByHour, r.at) in buckets then [r] else []
  }

  lemma {:induction false} OneBucketOnly(table: seq<Record>, metric: string, f: Filter, bs: set<nat>, b: nat)
    requires IsAligned(ByHour, b) && b !in bs
    ensures multiset(Rows(table, metric, f, bs + {b})) ==
      multiset(Rows(table, metric, f, bs)) + multiset(Content(table, metric, f, b))
  {
    hide Trunc;
    hide Passes;
    hide IsAligned;
    if table != [] {
      var r := table[|table| - 1];
      OneBucketOnly(table[..|table| - 1], metric, f, bs, b);
      HourSpan(r.at, b);
    }
  }

  lemma {:induction false} NoBucketsNoRows(table: seq<Record>, metric: string, f: Filter)
    ensures Rows(table, metric, f, {}) == []
  {
    if table != [] {
      NoBucketsNoRows(table[..|table| - 1], metric, f);
    }
  }

  function Elements(order: seq<nat>): set<nat> { set b | b in order }

  /** If every part is its bucket's content, no record is lost and none is counted twice. */
  lemma {:induction false} PartsMakeRows(table: seq<Record>, metric: string, f: Filter, parts: map<nat, seq<Record>>,
                                         order: seq<nat>)
    requires Distinct(order)
    requires forall b | b in order :: b in parts && IsAligned(ByHour, b) && parts[b] == Content(table, metric, f, b)
    ensures multiset(Concat(parts, order)) == multiset(Rows(table, metric, f, Elements(order)))
    decreases |order|
  {
    hide IsAligned;
    hide Content;
    hide Rows;
    if order == [] {
      NoBucketsNoRows(table, metric, f);
      assert Elements(order) == {};
    } else {
      var b, rest := order[|order| - 1], order[..|order| - 1];
      assert order == rest + [b];
      PartsMakeRows(table, metric, f, parts, rest);
      assert b !in rest;
      OneBucketOnly(table, metric, f, Elements(rest), b);
      assert Elements(order) == Elements(rest) + {b};
      assert Concat(parts, order) == Concat(parts, rest) + parts[b];
    }
  }

  /** For rows stamped on the hour, the buckets of a range hold what the query from the truncated
      start to the end returns. */
  lemma {:induction false} RowsAreDirect(table: seq<Record>, metric: string, f: Filter, buckets: set<nat>, start: nat,
                                         end: int)
    requires forall b: nat :: b in buckets <==> IsBucket(b, start, end)
    requires forall i | 0 <= i < |table| :: IsAligned(ByHour, table[i].at)
    ensures Rows(table, metric, f, buckets) == Select(table, metric, f, Trunc(ByHour, start), end + 1)
  {
    if table != [] {
      RowsAreDirect(table[..|table| - 1], metric, f, buckets, start, end);
    }
  }

  // ---------------------------------------------------------------- the query and the times to live, in plain terms

  /** A query returns each row that is of the metric, of the project and of the tag, as far as they are
      asked for, and not before `lo` and before `hi`, as often as the table has it. */
  lemma {:induction false} SelectIs(table: seq<Record>, metric: string, f: Filter, lo: int, hi: int, r: Record)
    ensures multiset(Select(table, metric, f, lo, hi))[r] ==
            if (metric == "" || r.metric == metric) && (f.project == "" || r.project == f.project)
               && (f.tag == None || f.tag == Some(r.tag)) && lo <= r.at < hi
            then multiset(table)[r] else 0
  {
    if table != [] {
      var n := |table| - 1;
      SelectIs(table[..n], metric, f, lo, hi, r);
      SelectOneMore(table, metric, f, lo, hi);
      assert table == table[..n] + [table[n]];
      hide Select;
    }
  }

  lemma SelectOneMore(table: seq<Record>, metric: string, f: Filter, lo: int, hi: int)
    requires table != []
    ensures
      var n := |table| - 1;
      multiset(Select(table, metric, f, lo, hi)) ==
      multiset(Select(table[..n], metric, f, lo, hi))
      + if Passes(table[n], metric, f) && lo <= table[n].at < hi then multiset{table[n]} else multiset{}
  {
    hide Passes;
  }

  /** It keeps the order of the table. */
  lemma {:induction false} SelectAppends(xs: seq<Record>, ys: seq<Record>, metric: string, f: Filter, lo: int, hi: int)
    ensures Select(xs + ys, metric, f, lo, hi) == Select(xs, metric, f, lo, hi) + Select(ys, metric, f, lo, hi)
  {
    if ys == [] {
      assert xs + ys == xs;
    } else {
      var n := |ys| - 1;
      SelectAppends(xs, ys[..n], metric, f, lo, hi);
      assert (xs + ys)[..|xs| + n] == xs + ys[..n];
    }
  }

  /** A bucket that was written before its hour was over lives for the short time, any other for the
      long one. */
  lemma TtlIs(ttls: Ttls, b: nat, now: nat)
    requires IsAligned(ByHour, b)
    ensures TtlForBucket(ttls, b, now) == if now < b + 3_600_000_000 then ttls.current else ttls.historical
  {
    TruncTwice(ByHour, now);
    HourGap(b, Trunc(ByHour, now));
    HourGap(Trunc(ByHour, now), b);
  }
}
