/** `_fetch_hourly_with_bucket_cache` on a live cache: the clock moves, the table changes, entries
    are evicted or garbled, writes fail, and still every bucket returned is recent. */
module HourlyFetch {
  import opened Calendar
  import opened Options
  import opened TimeBuckets
  import opened BucketKeys
  import opened BucketCache
  import opened GroupBy

  /** The entry holds what the table held, under one of the filters `fs`, at some instant `t`, and
      was written at `u`, at most `delay` later, with the bucket's time to live at that moment. */
  ghost predicate WasContent(slot: Slot, b: nat, metric: string, ttls: Ttls, fs: set<Filter>, table: nat -> seq<Record>,
                             now: nat, delay: nat) {
    exists f: Filter, t: nat, u: nat ::
      && f in fs && t <= u <= now && u - t <= delay
      && slot.payload == Records(Content(table(t), metric, f, b))
      && slot.until == u + TtlForBucket(ttls, b, u)
  }

  /** What a fetch with filter `g` that starts at `t0` and reads the table at `t1` may return for a
      bucket: the content at `t1`, or an earlier content, under the filter of an earlier fetch,
      whose time to live had not run out at `t0`. */
  ghost predicate IsRecent(part: seq<Record>, b: nat, metric: string, ttls: Ttls, g: Filter, fs: set<Filter>,
                           table: nat -> seq<Record>, t0: nat, t1: nat, delay: nat) {
    || part == Content(table(t1), metric, g, b)
    || exists f: Filter, t: nat, u: nat ::
         && f in fs && t <= u <= t0 && u - t <= delay && t0 < u + TtlForBucket(ttls, b, u)
         && part == Content(table(t), metric, f, b)
  }

  lemma StillContent(slot: Slot, b: nat, metric: string, ttls: Ttls, fs: set<Filter>, more: set<Filter>,
                     table: nat -> seq<Record>, now: nat, later: nat, delay: nat)
    requires WasContent(slot, b, metric, ttls, fs, table, now, delay) && now <= later && fs <= more
    ensures WasContent(slot, b, metric, ttls, more, table, later, delay)
  {
  }

  lemma HitIsRecent(slot: Slot, b: nat, metric: string, ttls: Ttls, g: Filter, fs: set<Filter>,
                    table: nat -> seq<Record>, now: nat, t1: nat, delay: nat)
    requires WasContent(slot, b, metric, ttls, fs, table, now, delay) && slot.payload.Records? && now < slot.until
    ensures IsRecent(slot.payload.records, b, metric, ttls, g, fs, table, now, t1, delay)
  {
  }

  /** Every readable entry under a bucket key of this organization was the table's content. */
  ghost predicate CacheIsFresh(cache: Cache, org: string, ttls: Ttls, fs: set<Filter>, table: nat -> seq<Record>,
                               now: nat, delay: nat) {
    forall b: nat, metric: string | IsAligned(ByHour, b) && HourKey(org, b, metric) in cache
      && cache[HourKey(org, b, metric)].payload.Records? ::
      WasContent(cache[HourKey(org, b, metric)], b, metric, ttls, fs, table, now, delay)
  }

  lemma StillFresh(cache: Cache, org: string, ttls: Ttls, fs: set<Filter>, more: set<Filter>, table: nat -> seq<Record>,
                   now: nat, later: nat, delay: nat)
    requires CacheIsFresh(cache, org, ttls, fs, table, now, delay) && now <= later && fs <= more
    ensures CacheIsFresh(cache, org, ttls, more, table, later, delay)
  {
    hide WasContent;
    forall b: nat, metric: string | IsAligned(ByHour, b) && HourKey(org, b, metric) in cache
      && cache[HourKey(org, b, metric)].payload.Records?
      ensures WasContent(cache[HourKey(org, b, metric)], b, metric, ttls, more, table, later, delay)
    {
      StillContent(cache[HourKey(org, b, metric)], b, metric, ttls, fs, more, table, now, later, delay);
    }
  }

  /** Writing buckets that were read at `t` keeps the cache fresh. */
  lemma WriteKeepsFresh(before: Cache, after: Cache, org: string, ttls: Ttls, f: Filter, fs: set<Filter>,
                        table: nat -> seq<Record>, t: nat, now: nat, delay: nat,
                        data: map<nat, seq<Record>>, order: seq<nat>, saved: set<nat>, metric: string)
    requires Without(org, ':') && CacheIsFresh(before, org, ttls, fs, table, now, delay)
    requires f in fs && t <= now <= t + delay
    requires forall b | b in order :: b in data && IsAligned(ByHour, b) && data[b] == Content(table(t), metric, f, b)
    requires Written(before, after, org, ttls, now, data, order, saved, metric)
    ensures CacheIsFresh(after, org, ttls, fs, table, now, delay)
  {
    hide IsAligned;
    hide HourKey;
    hide TtlForBucket;
    hide Content;
    forall b: nat, m: string | IsAligned(ByHour, b) && HourKey(org, b, m) in after &&
      after[HourKey(org, b, m)].payload.Records?
      ensures WasContent(after[HourKey(org, b, m)], b, m, ttls, fs, table, now, delay)
    {
      if HourKey(org, b, m) in WrittenKeys(org, order, saved, metric) {
        var c :| c in order && c in saved && HourKey(org, c, metric) == HourKey(org, b, m);
        if c != b || m != metric {
          HourKeysDiffer(org, c, metric, b, m);
        }
      } else {
        assert SameSlot(before, after, HourKey(org, b, m));
      }
    }
  }

  /** A batch of buckets, written at `now` as far as the writes succeed, and nothing else. */
  ghost predicate Written(before: Cache, after: Cache, org: string, ttls: Ttls, now: nat,
                          data: map<nat, seq<Record>>, order: seq<nat>, saved: set<nat>, metric: string)
    requires forall b | b in order :: b in data
  {
    && (forall b | b in order && b in saved ::
          HoldsAt(after, HourKey(org, b, metric), data[b], now + TtlForBucket(ttls, b, now)))
    && (forall key | key !in WrittenKeys(org, order, saved, metric) :: SameSlot(before, after, key))
  }

  predicate HoldsAt(cache: Cache, key: string, records: seq<Record>, until: nat) {
    key in cache && cache[key] == Slot(Records(records), until)
  }

  function LookupBucket(cache: Cache, now: nat, org: string, b: nat, metric: string, fails: bool): Option<seq<Record>> {
    if fails then None else Lookup(cache, now, HourKey(org, b, metric))
  }

  class MetricsCache {
    const org: string
    const ttls: Ttls
    /** The organization's rows in the hourly table, at any instant. */
    const table: nat -> seq<Record>
    /** How long a fetch may take from its query to its cache write. */
    const delay: nat
    var cache: Cache
    var now: nat
    /** The filters of the fetches so far. */
    ghost var used: set<Filter>

    ghost predicate Valid()
      reads this
    {
      Without(org, ':') && CacheIsFresh(cache, org, ttls, used, table, now, delay)
    }

    constructor (org: string, ttls: Ttls, table: nat -> seq<Record>, delay: nat, now: nat)
      requires Without(org, ':')
      ensures Valid() && cache == map[] && this.now == now && used == {}
      ensures this.org == org && this.ttls == ttls && this.table == table && this.delay == delay
    {
      this.org, this.ttls, this.table, this.delay := org, ttls, table, delay;
      this.cache, this.now, this.used := map[], now, {};
    }

    method Tick(d: nat)
      requires Valid()
      modifies this`now
      ensures Valid() && now == old(now) + d
    {
      now := now + d;
      StillFresh(cache, org, ttls, used, used, table, old(now), now, delay);
    }

    /** The cache server drops an entry. */
    method Evict(key: string)
      requires Valid()
      modifies this`cache
      ensures Valid() && cache == old(cache) - {key}
    {
      cache := cache - {key};
    }

    /** Something that is not JSON gets under a key. */
    method Garble(key: string, until: nat)
      requires Valid()
      modifies this`cache
      ensures Valid() && cache == old(cache)[key := Slot(Garbage, until)]
    {
      cache := cache[key := Slot(Garbage, until)];
    }

    /** What the batch read returns for a bucket; nothing at all if it fails. */
    function Served(b: nat, metric: string, fails: bool): Option<seq<Record>>
      reads this
    {
      LookupBucket(cache, now, org, b, metric, fails)
    }

    /** Every bucket of the range is either cached or missing. */
    method MGetMetricsBuckets(start: nat, end: int, metric: string, fails: bool)
      returns (cached: map<nat, seq<Record>>, found: seq<nat>, missing: seq<nat>)
      ensures Increasing(missing) && Increasing(found) && cached.Keys == Elements(found)
      ensures forall b: nat :: b in found <==> IsBucket(b, start, end) && Served(b, metric, fails).Some?
      ensures forall b: nat :: b in missing <==> IsBucket(b, start, end) && Served(b, metric, fails).None?
      ensures forall b | b in cached :: Served(b, metric, fails) == Some(cached[b])
      ensures forall b | b in cached ::
        var key := HourKey(org, b, metric);
        !fails && key in cache && now < cache[key].until && cache[key].payload == Records(cached[b])
    {
      hide IsAligned;
      hide Trunc;
      hide HourKey;
      var buckets := GenerateTimeBuckets(start, end, ByHour);
      cached, found, missing := map[], [], [];
      if fails {
        return map[], [], buckets;
      }
      for i := 0 to |buckets|
        invariant Increasing(missing) && Increasing(found) && cached.Keys == Elements(found)
        invariant forall b: nat :: b in found <==> b in buckets[..i] && Served(b, metric, fails).Some?
        invariant forall b: nat :: b in missing <==> b in buckets[..i] && Served(b, metric, fails).None?
        invariant forall b | b in cached :: Served(b, metric, fails) == Some(cached[b])
      {
        var b := buckets[i];
        assert buckets[..i + 1] == buckets[..i] + [b];
        AppendNext(found, buckets, i);
        AppendNext(missing, buckets, i);
        var hit := Lookup(cache, now, HourKey(org, b, metric));
        if hit.Some? {
          cached, found := cached[b := hit.value], found + [b];
        } else {
          missing := missing + [b];
        }
      }
      assert buckets[..|buckets|] == buckets;
    }

    /** Puts the records of one wide query into the missing buckets, then adds the empty ones. */
    static method PartitionByBucket(records: seq<Record>, missing: seq<nat>)
      returns (data: map<nat, seq<Record>>, order: seq<nat>)
      ensures Distinct(order) && data.Keys == Elements(order) == Elements(missing)
      ensures forall b | b in data :: data[b] == InBucket(records, b)
    {
      hide Trunc;
      hide InBucket;
      data, order := map[], [];
      NothingYet(records, missing);
      for i := 0 to |records|
        invariant Distinct(order) && data.Keys == Elements(order) <= Elements(missing)
        invariant forall b | b in missing :: InBucket(records[..i], b) == PartOf(data, b)
      {
        NextRecord(records, i, missing);
        var b := Trunc(ByHour, records[i].at);
        if b in missing {
          if b !in data {
            data, order := data[b := []], order + [b];
          }
          data := data[b := data[b] + [records[i]]];
        }
      }
      assert records[..|records|] == records;
      for i := 0 to |missing|
        invariant Distinct(order) && data.Keys == Elements(order) <= Elements(missing)
        invariant forall b | b in missing :: InBucket(records, b) == PartOf(data, b)
        invariant forall b | b in missing[..i] :: b in data
      {
        assert missing[..i + 1] == missing[..i] + [missing[i]];
        if missing[i] !in data {
          data, order := data[missing[i] := []], order + [missing[i]];
        }
      }
      assert missing[..|missing|] == missing;
    }

    /** Writes the buckets whose write succeeds, each with its own time to live. */
    method MSetMetricsBuckets(data: map<nat, seq<Record>>, order: seq<nat>, metric: string, saved: set<nat>)
      requires Without(org, ':') && Distinct(order) && forall b | b in order :: b in data && IsAligned(ByHour, b)
      modifies this`cache
      ensures Written(old(cache), cache, org, ttls, now, data, order, saved, metric)
    {
      hide IsAligned;
      hide HourKey;
      hide TtlForBucket;
      for i := 0 to |order|
        invariant Written(old(cache), cache, org, ttls, now, data, order[..i], saved, metric)
      {
        var b := order[i];
        assert order[..i + 1] == order[..i] + [b];
        forall c | c in order[..i]
          ensures HourKey(org, c, metric) != HourKey(org, b, metric)
        {
          assert c != b;
          HourKeysDiffer(org, c, metric, b, metric);
        }
        assert b in saved ==> HourKey(org, b, metric) in WrittenKeys(org, order[..i + 1], saved, metric);
        assert WrittenKeys(org, order[..i], saved, metric) <= WrittenKeys(org, order[..i + 1], saved, metric);
        if b in saved {
          cache := cache[HourKey(org, b, metric) := Slot(Records(data[b]), now + TtlForBucket(ttls, b, now))];
        }
      }
      assert order[..|order|] == order;
    }

    /** One query over the span of the missing buckets, split by hour and written back `d2` later. */
    method FillMissing(missing: seq<nat>, metric: string, f: Filter, saved: set<nat>, d2: nat)
      returns (data: map<nat, seq<Record>>, order: seq<nat>)
      requires Valid() && f in used && d2 <= delay && missing != [] && Increasing(missing)
      requires forall b | b in missing :: IsAligned(ByHour, b)
      modifies this`cache, this`now
      ensures Valid() && now == old(now) + d2
      ensures Distinct(order) && data.Keys == Elements(order) == Elements(missing)
      ensures forall b | b in data :: data[b] == Content(table(old(now)), metric, f, b)
      ensures forall b | b in order :: b in data
      ensures Written(old(cache), cache, org, ttls, now, data, order, saved, metric)
    {
      hide CacheIsFresh;
      hide IsAligned;
      hide HourKey;
      hide Content;
      hide Written;
      ghost var t := now;
      var rows := Select(table(now), metric, f, missing[0], missing[|missing| - 1] + HOUR);
      data, order := PartitionByBucket(rows, missing);
      forall b | b in data
        ensures data[b] == Content(table(t), metric, f, b)
      {
        PartIsContent(table(t), metric, f, missing, b);
      }
      ghost var before := cache;
      Tick(d2);
      MSetMetricsBuckets(data, order, metric, saved);
      WriteKeepsFresh(before, cache, org, ttls, f, used, table, t, now, delay, data, order, saved, metric);
    }

    /** The parts of a fetch, in the order they are combined. */
    method FetchParts(start: nat, end: int, metric: string, f: Filter, fails: bool, saved: set<nat>, d1: nat, d2: nat)
      returns (parts: map<nat, seq<Record>>, order: seq<nat>)
      requires Valid() && f in used && d2 <= delay
      modifies this`cache, this`now
      ensures Valid() && now == old(now) + d1 + d2
      ensures Distinct(order) && parts.Keys == Elements(order)
      ensures forall b: nat :: b in parts <==> IsBucket(b, start, end)
      ensures AllFetched(parts, old(cache), old(now), org, metric, fails, table(old(now) + d1), f)
      ensures Stored(old(cache), cache, org, ttls, Fetch(start, end, metric, f, fails, saved, old(now), now),
                     table(old(now) + d1))
    {
      hide CacheIsFresh;
      hide IsAligned;
      hide HourKey;
      hide Content;
      hide LookupBucket;
      hide IsBucket;
      hide AllFetched;
      hide Elements;
      hide Distinct;
      hide Increasing;
      hide Written;
      hide Stored;
      ghost var c, t0 := cache, now;
      var cached, found, missing := MGetMetricsBuckets(start, end, metric, fails);
      Tick(d1);
      ghost var t1 := now;
      var data, dbOrder := map[], [];
      if missing != [] {
        BucketsAreAligned(missing, start, end);
        data, dbOrder := FillMissing(missing, metric, f, saved, d2);
      } else {
        NothingMissing();
        NothingWritten(c, org, ttls, now + d2, saved, metric);
        Tick(d2);
      }
      parts, order := cached + data, found + dbOrder;
      PartsAreFetched(c, t0, org, metric, fails, start, end, cached, found, missing, data, dbOrder, table(t1), f);
      WrittenIsStored(c, cache, org, ttls, Fetch(start, end, metric, f, fails, saved, t0, now), table(t1), missing,
                      data, dbOrder);
    }

    /** Hourly records of `start..end`: the buckets the cache has, the others from a query `d1`
        later, written back `d2` after that. The parts partition the requested buckets, and each is
        the table's content at an instant less than its time to live ago, plus the time its fetch
        took to write it, under this fetch's filter or that of the fetch that stored it. */
    method FetchHourlyWithBucketCache(start: nat, end: int, metric: string, f: Filter, fails: bool, saved: set<nat>,
                                      d1: nat, d2: nat)
      returns (records: seq<Record>, parts: map<nat, seq<Record>>, order: seq<nat>)
      requires Valid() && d2 <= delay
      modifies this
      ensures Valid() && now == old(now) + d1 + d2 && used == old(used) + {f}
      ensures Distinct(order) && parts.Keys == Elements(order) && records == Concat(parts, order)
      ensures forall b: nat :: b in parts <==> IsBucket(b, start, end)
      ensures AllFetched(parts, old(cache), old(now), org, metric, fails, table(old(now) + d1), f)
      ensures AllRecent(parts, metric, ttls, f, old(used), table, old(now), old(now) + d1, delay)
      ensures AllYoung(parts, metric, ttls, f, old(used), table, old(now), old(now) + d1, delay)
      ensures Stored(old(cache), cache, org, ttls, Fetch(start, end, metric, f, fails, saved, old(now), now),
                     table(old(now) + d1))
      ensures StoredFor(old(cache), cache, org, ttls, Fetch(start, end, metric, f, fails, saved, old(now), now),
                        table(old(now) + d1))
    {
      hide CacheIsFresh;
      hide IsBucket;
      hide AllFetched;
      hide AllRecent;
      hide AllYoung;
      hide StoredFor;
      hide Stored;
      ghost var c, t0, fs := cache, now, used;
      StillFresh(cache, org, ttls, used, used + {f}, table, now, now, delay);
      used := used + {f};
      parts, order := FetchParts(start, end, metric, f, fails, saved, d1, d2);
      FetchedAreRecent(c, org, metric, ttls, f, fs, table, t0, t0 + d1, delay, fails, parts, start, end);
      PartsAreYoung(parts, metric, ttls, f, fs, table, t0, t0 + d1, delay, start, end);
      StoredIsFor(c, cache, org, ttls, Fetch(start, end, metric, f, fails, saved, t0, now), table(t0 + d1));
      records := CombineRecords(parts, order);
    }

    static method CombineRecords(parts: map<nat, seq<Record>>, order: seq<nat>) returns (records: seq<Record>)
      requires forall b | b in order :: b in parts
      ensures records == Concat(parts, order)
    {
      records := [];
      for i := 0 to |order|
        invariant records == Concat(parts, order[..i])
      {
        assert order[..i + 1][..i] == order[..i];
        records := records + parts[order[i]];
      }
      assert order[..|order|] == order;
    }
  }

  /** Each part is the cache's, if the cache had one, and the table's otherwise. */
  ghost predicate AllFetched(parts: map<nat, seq<Record>>, cache: Cache, now: nat, org: string, metric: string,
                             fails: bool,
                             rows: seq<Record>, f: Filter) {
    forall b: nat | b in parts ::
      parts[b] == FetchedPart(LookupBucket(cache, now, org, b, metric, fails), rows, metric, f, b)
  }

  ghost predicate AllRecent(parts: map<nat, seq<Record>>, metric: string, ttls: Ttls, g: Filter, fs: set<Filter>,
                            table: nat -> seq<Record>, t0: nat, t1: nat, delay: nat) {
    forall b: nat | b in parts :: IsRecent(parts[b], b, metric, ttls, g, fs, table, t0, t1, delay)
  }

  /** A fetch of the buckets of a range: whether its batch read fails, which writes succeed, and when
      it reads and writes the cache. */
  datatype Fetch = Fetch(start: nat, end: int, metric: string, f: Filter, fails: bool, saved: set<nat>, t0: nat, u: nat)

  /** The bucket is not found and gets written. */
  predicate Refills(before: Cache, org: string, c: Fetch, b: nat) {
    b in c.saved && IsBucket(b, c.start, c.end) && LookupBucket(before, c.t0, org, b, c.metric, c.fails).None?
  }

  ghost function StoredKeys(before: Cache, org: string, c: Fetch): set<string> {
    set b | b in c.saved && Refills(before, org, c, b) :: HourKey(org, b, c.metric)
  }

  /** What a fetch leaves in the cache: the buckets it did not find, as `rows` has them under its
      filter, and everything else as it was. */
  ghost predicate Stored(before: Cache, after: Cache, org: string, ttls: Ttls, c: Fetch, rows: seq<Record>) {
    && (forall b | b in c.saved && Refills(before, org, c, b) ::
          HoldsAt(after, HourKey(org, b, c.metric), Content(rows, c.metric, c.f, b), c.u + TtlForBucket(ttls, b, c.u)))
    && (forall key | key !in StoredKeys(before, org, c) :: SameSlot(before, after, key))
  }

  lemma NothingWritten(cache: Cache, org: string, ttls: Ttls, now: nat, saved: set<nat>, metric: string)
    ensures Written(cache, cache, org, ttls, now, map[], [], saved, metric)
  {
  }

  lemma WrittenIsStored(before: Cache, after: Cache, org: string, ttls: Ttls, c: Fetch, rows: seq<Record>,
                        missing: seq<nat>, data: map<nat, seq<Record>>, order: seq<nat>)
    requires
      forall b: nat :: b in missing <==>
        IsBucket(b, c.start, c.end) && LookupBucket(before, c.t0, org, b, c.metric, c.fails).None?
    requires data.Keys == Elements(order) == Elements(missing)
    requires forall b | b in data :: data[b] == Content(rows, c.metric, c.f, b)
    requires forall b | b in order :: b in data
    requires Written(before, after, org, ttls, c.u, data, order, c.saved, c.metric)
    ensures Stored(before, after, org, ttls, c, rows)
  {
    hide Content;
    hide IsBucket;
    hide LookupBucket;
    hide HourKey;
    hide TtlForBucket;
    hide SameSlot;
    hide HoldsAt;
    forall b: nat
      ensures b in order <==> b in missing
    {
      assert b in order <==> b in Elements(order);
      assert b in missing <==> b in Elements(missing);
    }
    assert StoredKeys(before, org, c) == WrittenKeys(org, order, c.saved, c.metric);
  }

  lemma NothingMissing()
    ensures Distinct<nat>([]) && Elements([]) == {}
  {
  }

  lemma BucketsAreAligned(bs: seq<nat>, start: nat, end: int)
    requires forall b | b in bs :: IsBucket(b, start, end)
    ensures forall b | b in bs :: IsAligned(ByHour, b)
  {
  }

  lemma OrdersJoin(found: seq<nat>, missing: seq<nat>, dbOrder: seq<nat>)
    requires Increasing(found) && Distinct(dbOrder) && Elements(dbOrder) == Elements(missing)
    requires forall b | b in found :: b !in missing
    ensures Distinct(found + dbOrder) && Elements(found + dbOrder) == Elements(found) + Elements(missing)
  {
    forall i, j | 0 <= i < j < |found + dbOrder|
      ensures (found + dbOrder)[i] != (found + dbOrder)[j]
    {
      if i < |found| && j >= |found| {
        assert found[i] in found && dbOrder[j - |found|] in Elements(dbOrder);
      }
    }
  }

  function FetchedPart(served: Option<seq<Record>>, table: seq<Record>, metric: string, f: Filter,
                       b: nat): seq<Record> {
    if served.Some? then served.value else Content(table, metric, f, b)
  }

  /** What was found and what was filled in make up the range. */
  lemma PartsAreFetched(c: Cache, t0: nat, org: string, metric: string, fails: bool, start: nat, end: int,
                        cached: map<nat, seq<Record>>, found: seq<nat>, missing: seq<nat>,
                        data: map<nat, seq<Record>>, dbOrder: seq<nat>, rows: seq<Record>, f: Filter)
    requires Increasing(found) && cached.Keys == Elements(found)
    requires forall b: nat :: b in found <==>
      IsBucket(b, start, end) && LookupBucket(c, t0, org, b, metric, fails).Some?
    requires forall b: nat :: b in missing <==>
      IsBucket(b, start, end) && LookupBucket(c, t0, org, b, metric, fails).None?
    requires forall b | b in cached :: LookupBucket(c, t0, org, b, metric, fails) == Some(cached[b])
    requires Distinct(dbOrder) && data.Keys == Elements(dbOrder) == Elements(missing)
    requires forall b | b in data :: data[b] == Content(rows, metric, f, b)
    ensures Distinct(found + dbOrder) && (cached + data).Keys == Elements(found + dbOrder)
    ensures forall b: nat :: b in cached + data <==> IsBucket(b, start, end)
    ensures AllFetched(cached + data, c, t0, org, metric, fails, rows, f)
  {
    hide IsBucket;
    hide LookupBucket;
    hide Content;
    OrdersJoin(found, missing, dbOrder);
    forall b: nat
      ensures b in cached + data <==> IsBucket(b, start, end)
    {
      assert b in cached.Keys <==> b in Elements(found);
      assert b in data.Keys <==> b in Elements(missing);
    }
    forall b: nat | b in cached + data
      ensures (cached + data)[b] == FetchedPart(LookupBucket(c, t0, org, b, metric, fails), rows, metric, f, b)
    {
      assert b in data.Keys <==> b in Elements(missing);
    }
  }

  lemma FetchedAreRecent(cache: Cache, org: string, metric: string, ttls: Ttls, g: Filter, fs: set<Filter>,
                         table: nat -> seq<Record>, now: nat, t1: nat, delay: nat, fails: bool,
                         parts: map<nat, seq<Record>>, start: nat, end: int)
    requires CacheIsFresh(cache, org, ttls, fs, table, now, delay)
    requires AllFetched(parts, cache, now, org, metric, fails, table(t1), g)
    requires forall b: nat :: b in parts ==> IsBucket(b, start, end)
    ensures AllRecent(parts, metric, ttls, g, fs, table, now, t1, delay)
  {
    hide IsRecent;
    hide CacheIsFresh;
    hide LookupBucket;
    forall b: nat | b in parts
      ensures IsRecent(parts[b], b, metric, ttls, g, fs, table, now, t1, delay)
    {
      FetchedIsRecent(cache, org, b, metric, ttls, g, fs, table, now, t1, delay, fails);
    }
  }

  lemma FetchedIsRecent(cache: Cache, org: string, b: nat, metric: string, ttls: Ttls, g: Filter, fs: set<Filter>,
                        table: nat -> seq<Record>, now: nat, t1: nat, delay: nat, fails: bool)
    requires CacheIsFresh(cache, org, ttls, fs, table, now, delay) && IsAligned(ByHour, b)
    ensures
      var served := LookupBucket(cache, now, org, b, metric, fails);
      IsRecent(FetchedPart(served, table(t1), metric, g, b), b, metric, ttls, g, fs, table, now, t1, delay)
  {
    if !fails && Lookup(cache, now, HourKey(org, b, metric)).Some? {
      hide WasContent;
      hide IsRecent;
      HitIsRecent(cache[HourKey(org, b, metric)], b, metric, ttls, g, fs, table, now, t1, delay);
    }
  }

  /** The query over the span of the missing buckets covers each of them whole. */
  lemma PartIsContent(table: seq<Record>, metric: string, f: Filter, missing: seq<nat>, b: nat)
    requires Increasing(missing) && b in missing && forall c | c in missing :: IsAligned(ByHour, c)
    ensures InBucket(Select(table, metric, f, missing[0], missing[|missing| - 1] + HOUR), b) ==
      Content(table, metric, f, b)
  {
    SplitIsContent(table, metric, f, missing[0], missing[|missing| - 1] + HOUR, b);
  }

  function WrittenKeys(org: string, order: seq<nat>, saved: set<nat>, metric: string): set<string> {
    set b | b in order && b in saved :: HourKey(org, b, metric)
  }

  function PartOf(data: map<nat, seq<Record>>, b: nat): seq<Record> { if b in data then data[b] else [] }

  lemma NothingYet(records: seq<Record>, missing: seq<nat>)
    ensures forall b | b in missing :: InBucket(records[..0], b) == []
  {
  }

  lemma NextRecord(records: seq<Record>, i: nat, missing: seq<nat>)
    requires i < |records|
    ensures forall b | b in missing ::
      InBucket(records[..i + 1], b) ==
      if Trunc(ByHour, records[i].at) == b then InBucket(records[..i], b) + [records[i]] else InBucket(records[..i], b)
  {
    hide Trunc;
    assert records[..i + 1][..i] == records[..i];
  }

  lemma AppendNext(xs: seq<nat>, buckets: seq<nat>, i: nat)
    requires Increasing(buckets) && Increasing(xs) && i < |buckets| && forall x | x in xs :: x in buckets[..i]
    ensures Increasing(xs + [buckets[i]])
  {
    forall j | 0 <= j < |xs|
      ensures xs[j] < buckets[i]
    {
      assert xs[j] in xs;
    }
  }

  // ---------------------------------------------------------------- how old and for how long

  /** A part is the content at `t1`, or was read at some `t` and written at some `u`: less than the short
      time to live and the delay ago if the hour was not over when it was written, less than the long
      one and the delay ago otherwise. */
  ghost predicate IsYoung(part: seq<Record>, b: nat, metric: string, ttls: Ttls, g: Filter, fs: set<Filter>,
                          table: nat -> seq<Record>, t0: nat, t1: nat, delay: nat) {
    || part == Content(table(t1), metric, g, b)
    || exists f: Filter, t: nat, u: nat ::
         && f in fs && InTime(ttls, b, t, u, t0, delay)
         && part == Content(table(t), metric, f, b)
  }

  predicate InTime(ttls: Ttls, b: nat, t: nat, u: nat, t0: nat, delay: nat) {
    && t <= u <= t0 && u - t <= delay
    && (u < b + HOUR ==> t0 - t < ttls.current + delay)
    && (u >= b + HOUR ==> t0 - t < ttls.historical + delay)
  }

  ghost predicate AllYoung(parts: map<nat, seq<Record>>, metric: string, ttls: Ttls, g: Filter, fs: set<Filter>,
                           table: nat -> seq<Record>, t0: nat, t1: nat, delay: nat) {
    forall b: nat | b in parts :: IsYoung(parts[b], b, metric, ttls, g, fs, table, t0, t1, delay)
  }

  lemma RecentIsYoung(part: seq<Record>, b: nat, metric: string, ttls: Ttls, g: Filter, fs: set<Filter>,
                      table: nat -> seq<Record>, t0: nat, t1: nat, delay: nat)
    requires IsRecent(part, b, metric, ttls, g, fs, table, t0, t1, delay) && IsAligned(ByHour, b)
    ensures IsYoung(part, b, metric, ttls, g, fs, table, t0, t1, delay)
  {
    if part != Content(table(t1), metric, g, b) {
      var f: Filter, t: nat, u: nat :|
        && f in fs && t <= u <= t0 && u - t <= delay && t0 < u + TtlForBucket(ttls, b, u)
        && part == Content(table(t), metric, f, b);
      TtlIs(ttls, b, u);
      hide IsAligned;
      assert InTime(ttls, b, t, u, t0, delay);
    }
  }

  lemma PartsAreYoung(parts: map<nat, seq<Record>>, metric: string, ttls: Ttls, g: Filter, fs: set<Filter>,
                      table: nat -> seq<Record>, t0: nat, t1: nat, delay: nat, start: nat, end: int)
    requires AllRecent(parts, metric, ttls, g, fs, table, t0, t1, delay)
    requires forall b: nat | b in parts :: IsBucket(b, start, end)
    ensures AllYoung(parts, metric, ttls, g, fs, table, t0, t1, delay)
  {
    hide IsRecent;
    hide IsYoung;
    forall b: nat | b in parts
      ensures IsYoung(parts[b], b, metric, ttls, g, fs, table, t0, t1, delay)
    {
      RecentIsYoung(parts[b], b, metric, ttls, g, fs, table, t0, t1, delay);
    }
  }

  /** What a fetch stores lives on for exactly the short time if its hour is not over yet, and for exactly
      the long one if it is. */
  ghost predicate StoredFor(before: Cache, after: Cache, org: string, ttls: Ttls, c: Fetch, rows: seq<Record>) {
    forall b | b in c.saved && Refills(before, org, c, b) ::
      HoldsAt(after, HourKey(org, b, c.metric), Content(rows, c.metric, c.f, b),
              c.u + if c.u < b + HOUR then ttls.current else ttls.historical)
  }

  lemma StoredIsFor(before: Cache, after: Cache, org: string, ttls: Ttls, c: Fetch, rows: seq<Record>)
    requires Stored(before, after, org, ttls, c, rows)
    ensures StoredFor(before, after, org, ttls, c, rows)
  {
    hide HourKey;
    hide Content;
    hide LookupBucket;
    forall b | b in c.saved && Refills(before, org, c, b)
      ensures HoldsAt(after, HourKey(org, b, c.metric), Content(rows, c.metric, c.f, b),
                      c.u + if c.u < b + HOUR then ttls.current else ttls.historical)
    {
      TtlIs(ttls, b, c.u);
    }
  }

  // ---------------------------------------------------------------- one filter

  lemma RecentIsContent(part: seq<Record>, rows: seq<Record>, table: nat -> seq<Record>, b: nat, metric: string,
                        ttls: Ttls, f: Filter, fs: set<Filter>, t0: nat, t1: nat, delay: nat)
    requires IsRecent(part, b, metric, ttls, f, fs, table, t0, t1, delay)
    requires fs <= {f} && forall t :: table(t) == rows
    ensures part == Content(rows, metric, f, b)
  {
  }

  /** While the table does not change and all fetches use one filter, a fetch is the direct query from
      the truncated start, for rows stamped on the hour, as the aggregation writes them. */
  lemma UnchangedTableIsDirect(rows: seq<Record>, table: nat -> seq<Record>, parts: map<nat, seq<Record>>,
                               order: seq<nat>,
                               metric: string, ttls: Ttls, f: Filter, fs: set<Filter>, start: nat, end: int,
                               t0: nat, t1: nat, delay: nat)
    requires fs <= {f} && forall t :: table(t) == rows
    requires Distinct(order) && parts.Keys == Elements(order)
    requires forall b: nat :: b in parts <==> IsBucket(b, start, end)
    requires AllRecent(parts, metric, ttls, f, fs, table, t0, t1, delay)
    requires forall i | 0 <= i < |rows| :: IsAligned(ByHour, rows[i].at)
    ensures multiset(Concat(parts, order)) == multiset(Select(rows, metric, f, Trunc(ByHour, start), end + 1))
  {
    forall b | b in order
      ensures b in parts && IsAligned(ByHour, b) && parts[b] == Content(rows, metric, f, b)
    {
      assert b in Elements(order);
      RecentIsContent(parts[b], rows, table, b, metric, ttls, f, fs, t0, t1, delay);
    }
    PartsMakeRows(rows, metric, f, parts, order);
    RowsAreDirect(rows, metric, f, Elements(order), start, end);
  }
}
