/** What happens when fetches with different filters share the bucket cache, whose keys leave the
    filter out. */
module SharedBuckets {
  import opened Calendar
  import opened MetricKind
  import opened Options
  import opened TimeBuckets
  import opened BucketKeys
  import opened BucketCache
  import opened HourlyFetch

  /** The second fetch finds bucket `b` as the first left it, under its filter `g`. */
  ghost predicate Shares(before: Cache, after: Cache, org: string, ttls: Ttls, c: Fetch, rows: seq<Record>,
                         t2: nat, later: seq<Record>, g: Filter, parts: map<nat, seq<Record>>, b: nat) {
    && Stored(before, after, org, ttls, c, rows) && Refills(before, org, c, b) && t2 < c.u + TtlForBucket(ttls, b, c.u)
    && b in parts && AllFetched(parts, after, t2, org, c.metric, false, later, g)
  }

  /** The key leaves the filter out: a fetch that finds a bucket which a fetch under another filter
      has stored gets what the other one asked for. */
  lemma SecondFetchGetsFirstFilter(before: Cache, after: Cache, org: string, ttls: Ttls, c: Fetch, rows: seq<Record>,
                                   t2: nat, later: seq<Record>, g: Filter, parts: map<nat, seq<Record>>, b: nat)
    requires Shares(before, after, org, ttls, c, rows, t2, later, g, parts, b)
    ensures parts[b] == Content(rows, c.metric, c.f, b)
  {
    hide HourKey;
    hide IsBucket;
    hide TtlForBucket;
    assert HoldsAt(after, HourKey(org, b, c.metric), Content(rows, c.metric, c.f, b), c.u + TtlForBucket(ttls, b, c.u));
  }

  /** Two filters select the same rows of a bucket if and only if each of its rows passes both or
      neither. */
  lemma {:induction false} SelectionsAgree(rows: seq<Record>, metric: string, f: Filter, g: Filter, lo: int, hi: int)
    ensures Select(rows, metric, f, lo, hi) == Select(rows, metric, g, lo, hi) <==>
            forall r | r in rows && lo <= r.at < hi :: Passes(r, metric, f) == Passes(r, metric, g)
  {
    SelectedPass(rows, metric, f, lo, hi);
    SelectedPass(rows, metric, g, lo, hi);
    if forall r | r in rows && lo <= r.at < hi :: Passes(r, metric, f) == Passes(r, metric, g) {
      SameSelection(rows, metric, f, g, lo, hi);
    }
  }

  lemma {:induction false} SelectedPass(rows: seq<Record>, metric: string, f: Filter, lo: int, hi: int)
    ensures forall r :: r in Select(rows, metric, f, lo, hi) <==> r in rows && Passes(r, metric, f) && lo <= r.at < hi
  {
    if rows != [] {
      SelectedPass(rows[..|rows| - 1], metric, f, lo, hi);
      assert rows == rows[..|rows| - 1] + [rows[|rows| - 1]];
    }
  }

  lemma {:induction false} SameSelection(rows: seq<Record>, metric: string, f: Filter, g: Filter, lo: int, hi: int)
    requires forall r | r in rows && lo <= r.at < hi :: Passes(r, metric, f) == Passes(r, metric, g)
    ensures Select(rows, metric, f, lo, hi) == Select(rows, metric, g, lo, hi)
  {
    if rows != [] {
      assert rows == rows[..|rows| - 1] + [rows[|rows| - 1]];
      SameSelection(rows[..|rows| - 1], metric, f, g, lo, hi);
    }
  }

  /** Whatever passes `f` passes `g`. */
  predicate Covers(g: Filter, f: Filter) {
    (g.project == "" || g.project == f.project) && (g.tag.None? || g.tag == f.tag)
  }

  /** A row that passes `f` and not `g`, if there is one. */
  function Outside(metric: string, f: Filter, g: Filter, b: nat): Record {
    var project := if f.project != "" then f.project else g.project + "x";
    var tag := if f.tag.Some? then f.tag.value else if g.tag.Some? then g.tag.value + "x" else "";
    Record(metric, Counter, Some(1.0), Some(1), project, tag, b)
  }

  lemma CoveringIsExact(metric: string, f: Filter, g: Filter, b: nat)
    ensures Passes(Outside(metric, f, g, b), metric, f)
    ensures Passes(Outside(metric, f, g, b), metric, g) <==> Covers(g, f)
    ensures Covers(f, g) && Covers(g, f) <==> f == g
  {
    if !Covers(g, f) {
      assert |g.project + "x"| > |g.project|;
      assert g.tag.Some? ==> |g.tag.value + "x"| > |g.tag.value|;
    }
  }

  /** The cache after a fetch. */
  ghost function AfterFetch(before: Cache, org: string, ttls: Ttls, c: Fetch, rows: seq<Record>): Cache {
    before + map key | key in StoredKeys(before, org, c) ::
      var b :| b in c.saved && Refills(before, org, c, b) && key == HourKey(org, b, c.metric);
      Slot(Records(Content(rows, c.metric, c.f, b)), c.u + TtlForBucket(ttls, b, c.u))
  }

  lemma AfterFetchIsStored(before: Cache, org: string, ttls: Ttls, c: Fetch, rows: seq<Record>)
    requires Without(org, ':')
    ensures Stored(before, AfterFetch(before, org, ttls, c, rows), org, ttls, c, rows)
  {
    hide HourKey;
    hide Content;
    hide TtlForBucket;
    hide LookupBucket;
    hide IsAligned;
    var after := AfterFetch(before, org, ttls, c, rows);
    forall b | b in c.saved && Refills(before, org, c, b)
      ensures HoldsAt(after, HourKey(org, b, c.metric), Content(rows, c.metric, c.f, b),
                      c.u + TtlForBucket(ttls, b, c.u))
    {
      assert HourKey(org, b, c.metric) in StoredKeys(before, org, c);
      forall d: nat | IsAligned(ByHour, d) && HourKey(org, d, c.metric) == HourKey(org, b, c.metric)
        ensures d == b
      {
        if d != b {
          HourKeysDiffer(org, d, c.metric, b, c.metric);
        }
      }
    }
  }

  /** Whatever the table holds, a fetch under `g` that finds the bucket gets what it asks for. */
  ghost predicate SharingIsRight(before: Cache, org: string, ttls: Ttls, c: Fetch, t2: nat, g: Filter, b: nat) {
    forall rows: seq<Record>, after: Cache, parts: map<nat, seq<Record>> |
      b in parts && Shares(before, after, org, ttls, c, rows, t2, rows, g, parts, b) ::
      parts[b] == Content(rows, c.metric, g, b)
  }

  /** Two fetches may share an entry if and only if their filters are the same. */
  lemma SharingIsRightIff(before: Cache, org: string, ttls: Ttls, c: Fetch, t2: nat, g: Filter, b: nat)
    requires Without(org, ':')
    requires Refills(before, org, c, b) && t2 < c.u + TtlForBucket(ttls, b, c.u)
    ensures SharingIsRight(before, org, ttls, c, t2, g, b) <==> c.f == g
  {
    hide Shares;
    hide Content;
    if c.f == g {
      forall rows: seq<Record>, after: Cache, parts: map<nat, seq<Record>> |
        b in parts && Shares(before, after, org, ttls, c, rows, t2, rows, g, parts, b)
        ensures parts[b] == Content(rows, c.metric, g, b)
      {
        SecondFetchGetsFirstFilter(before, after, org, ttls, c, rows, t2, rows, g, parts, b);
      }
    } else {
      var rows, after, parts := OtherFilterFails(before, org, ttls, c, t2, g, b);
      SecondFetchGetsFirstFilter(before, after, org, ttls, c, rows, t2, rows, g, parts, b);
    }
  }

  /** Under another filter, one row is enough to be wrong. */
  lemma OtherFilterFails(before: Cache, org: string, ttls: Ttls, c: Fetch, t2: nat, g: Filter, b: nat)
    returns (rows: seq<Record>, after: Cache, parts: map<nat, seq<Record>>)
    requires Without(org, ':') && c.f != g
    requires Refills(before, org, c, b) && t2 < c.u + TtlForBucket(ttls, b, c.u)
    ensures b in parts && Shares(before, after, org, ttls, c, rows, t2, rows, g, parts, b)
    ensures Content(rows, c.metric, c.f, b) != Content(rows, c.metric, g, b)
  {
    hide Content;
    hide Select;
    hide Passes;
    hide HourKey;
    hide Stored;
    var r := TellingRow(c.metric, c.f, g, b);
    hide Refills;
    hide TtlForBucket;
    hide LookupBucket;
    hide AfterFetch;
    hide FetchedPart;
    rows := [r];
    after := AfterFetch(before, org, ttls, c, rows);
    AfterFetchIsStored(before, org, ttls, c, rows);
    parts := OnePart(after, t2, org, b, c.metric, rows, g);
  }

  lemma OnePart(cache: Cache, now: nat, org: string, b: nat, metric: string, rows: seq<Record>, g: Filter)
    returns (parts: map<nat, seq<Record>>)
    ensures b in parts && AllFetched(parts, cache, now, org, metric, false, rows, g)
  {
    hide FetchedPart;
    hide LookupBucket;
    parts := map[b := FetchedPart(LookupBucket(cache, now, org, b, metric, false), rows, metric, g, b)];
  }

  lemma TellingRow(metric: string, f: Filter, g: Filter, b: nat) returns (r: Record)
    requires f != g
    ensures Content([r], metric, f, b) != Content([r], metric, g, b)
  {
    CoveringIsExact(metric, f, g, b);
    CoveringIsExact(metric, g, f, b);
    r := if Covers(g, f) then Outside(metric, g, f, b) else Outside(metric, f, g, b);
    assert r in [r] && r.at == b;
    SelectionsAgree([r], metric, f, g, b, b + HOUR);
  }

  /** For one table, the entry is right if and only if each of its rows in the bucket passes both
      filters or neither. */
  lemma SharedBucketIsRightIff(before: Cache, after: Cache, org: string, ttls: Ttls, c: Fetch, rows: seq<Record>,
                               t2: nat, g: Filter, parts: map<nat, seq<Record>>, b: nat)
    requires Shares(before, after, org, ttls, c, rows, t2, rows, g, parts, b)
    ensures parts[b] == Content(rows, c.metric, g, b) <==>
            forall r | r in rows && b <= r.at < b + HOUR :: Passes(r, c.metric, c.f) == Passes(r, c.metric, g)
  {
    SecondFetchGetsFirstFilter(before, after, org, ttls, c, rows, t2, rows, g, parts, b);
    SelectionsAgree(rows, c.metric, c.f, g, b, b + HOUR);
  }

  lemma OneRow(r: Record, metric: string, f: Filter, b: nat)
    ensures Content([r], metric, f, b) == if Passes(r, metric, f) && b <= r.at < b + HOUR then [r] else []
  {
    assert [r][..0] == [] && Select([r][..0], metric, f, b, b + HOUR) == [];
    assert [] + [r] == [r];
  }

  const ALPHA := Filter("alpha", None)
  const BETA := Filter("beta", None)
  const ALPHA_ROW := Record("llm_calls", Counter, Some(1.0), Some(1), "alpha", "", 0)

  /** One row of project `alpha`: fetched for that project and then for `beta`, it is shown as a row
      of `beta`, which has none. */
  lemma OtherProjectsRow(org: string, ttls: Ttls, after: Cache, parts: map<nat, seq<Record>>)
    requires ttls.current > 0
    requires Stored(map[], after, org, ttls, Fetch(0, 0, "", ALPHA, false, {0}, 0, 0), [ALPHA_ROW])
    requires 0 in parts && AllFetched(parts, after, 0, org, "", false, [ALPHA_ROW], BETA)
    ensures parts[0] == [ALPHA_ROW] && Content([ALPHA_ROW], "", BETA, 0) == []
  {
    hide HourKey;
    var c := Fetch(0, 0, "", ALPHA, false, {0}, 0, 0);
    assert IsBucket(0, 0, 0) && TtlForBucket(ttls, 0, 0) == ttls.current;
    assert Shares(map[], after, org, ttls, c, [ALPHA_ROW], 0, [ALPHA_ROW], BETA, parts, 0);
    SecondFetchGetsFirstFilter(map[], after, org, ttls, c, [ALPHA_ROW], 0, [ALPHA_ROW], BETA, parts, 0);
    OneRow(ALPHA_ROW, "", ALPHA, 0);
    OneRow(ALPHA_ROW, "", BETA, 0);
  }
}
