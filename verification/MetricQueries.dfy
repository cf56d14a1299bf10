/** What the source queries return: one row per period that has a row in the window, with the
    sum over the period. Amounts are exact, a count is a sum of ones. */
module MetricQueries {
  import opened Calendar
  import opened Options

  /** One source row: when it was created and what it adds, nothing for SQL `NULL`. */
  datatype Sample = Sample(at: nat, amount: Option<real>)

  /** Both bounds are inclusive. */
  predicate InWindow(t: nat, lo: int, hi: int) { lo <= t <= hi }

  predicate Hits(s: Sample, g: Grain, b: nat, lo: int, hi: int) {
    InWindow(s.at, lo, hi) && Trunc(g, s.at) == b
  }

  predicate BucketHas(ss: seq<Sample>, g: Grain, b: nat, lo: int, hi: int) {
    exists s | s in ss :: Hits(s, g, b, lo, hi)
  }

  function Or0(a: Option<real>): real { if a.Some? then a.value else 0.0 }

  /** The reference: what the rows of bucket `b` in the window add up to. */
  function BucketSum(ss: seq<Sample>, g: Grain, b: nat, lo: int, hi: int): real {
    if ss == [] then 0.0 else
      var s := ss[|ss| - 1];
      BucketSum(ss[..|ss| - 1], g, b, lo, hi) + if Hits(s, g, b, lo, hi) then Or0(s.amount) else 0.0
  }

  // ---------------------------------------------------------------- GROUP BY period

  /** Insert into a sorted sequence without repetition. */
  function Insert(ps: seq<nat>, p: nat): (r: seq<nat>)
    requires Increasing(ps)
    ensures Increasing(r) && forall q :: q in r <==> q in ps || q == p
  {
    if ps == [] || p < ps[0] then [p] + ps
    else if p == ps[0] then ps
    else
      var r := Insert(ps[1..], p);
      assert r[0] in ps[1..] || r[0] == p;
      [ps[0]] + r
  }

  lemma BucketHasSteps(ss: seq<Sample>, s: Sample, g: Grain, lo: int, hi: int)
    ensures forall b: nat :: BucketHas(ss + [s], g, b, lo, hi) <==> BucketHas(ss, g, b, lo, hi) || Hits(s, g, b, lo, hi)
  {
    assert forall x :: x in ss + [s] <==> x in ss || x == s;
  }

  /** The periods that occur, in order. */
  function Periods(ss: seq<Sample>, g: Grain, lo: int, hi: int): (ps: seq<nat>)
    ensures Increasing(ps) && forall p: nat :: p in ps <==> BucketHas(ss, g, p, lo, hi)
  {
    if ss == [] then [] else
      var s, rest := ss[|ss| - 1], ss[..|ss| - 1];
      BucketHasSteps(rest, s, g, lo, hi);
      assert rest + [s] == ss;
      var ps := Periods(rest, g, lo, hi);
      if InWindow(s.at, lo, hi) then Insert(ps, Trunc(g, s.at)) else ps
  }

  /** SQL `SUM`: nulls are skipped, and a group of nulls has no sum. */
  function SqlSum(ss: seq<Sample>, g: Grain, b: nat, lo: int, hi: int): (r: Option<real>)
    ensures Or0(r) == BucketSum(ss, g, b, lo, hi)
  {
    if ss == [] then None else
      var s, rest := ss[|ss| - 1], SqlSum(ss[..|ss| - 1], g, b, lo, hi);
      if !Hits(s, g, b, lo, hi) || s.amount.None? then rest else Some(Or0(rest) + s.amount.value)
  }

  datatype Row = Row(period: nat, value: Option<real>)

  function Query(ss: seq<Sample>, g: Grain, lo: int, hi: int): (rows: seq<Row>)
    ensures |rows| == |Periods(ss, g, lo, hi)|
  {
    var ps := Periods(ss, g, lo, hi);
    seq(|ps|, i requires 0 <= i < |ps| => Row(ps[i], SqlSum(ss, g, ps[i], lo, hi)))
  }

  // ---------------------------------------------------------------- usage rows

  datatype Reason = ForChallenge | ForSummarize | ForOther

  /** A row of the usage table with type `llm`. */
  datatype UsageRow = UsageRow(at: nat, reason: Reason, cost: Option<real>)

  datatype Field = Calls | Challenged | Summarized | Cost

  function FieldSample(f: Field, u: UsageRow): Sample {
    Sample(u.at,
           match f
           case Calls => Some(1.0)
           case Challenged => Some(if u.reason.ForChallenge? then 1.0 else 0.0)
           case Summarized => Some(if u.reason.ForSummarize? then 1.0 else 0.0)
           case Cost => u.cost)
  }

  function FieldSamples(f: Field, us: seq<UsageRow>): (ss: seq<Sample>)
    ensures |ss| == |us| && forall i | 0 <= i < |us| :: ss[i] == FieldSample(f, us[i])
  {
    seq(|us|, i requires 0 <= i < |us| => FieldSample(f, us[i]))
  }

  datatype CombinedRow = CombinedRow(period: nat, calls: Option<real>, challenged: Option<real>,
                                     summarized: Option<real>, cost: Option<real>)

  function Column(r: CombinedRow, f: Field): Option<real> {
    match f
    case Calls => r.calls
    case Challenged => r.challenged
    case Summarized => r.summarized
    case Cost => r.cost
  }

  /** All four aggregates from one pass over the groups. */
  function CombinedQuery(us: seq<UsageRow>, g: Grain, lo: int, hi: int): (rows: seq<CombinedRow>)
    ensures |rows| == |Periods(FieldSamples(Calls, us), g, lo, hi)|
  {
    var ps := Periods(FieldSamples(Calls, us), g, lo, hi);
    seq(|ps|, i requires 0 <= i < |ps| => CombinedRow(ps[i],
      SqlSum(FieldSamples(Calls, us), g, ps[i], lo, hi),
      SqlSum(FieldSamples(Challenged, us), g, ps[i], lo, hi),
      SqlSum(FieldSamples(Summarized, us), g, ps[i], lo, hi),
      SqlSum(FieldSamples(Cost, us), g, ps[i], lo, hi)))
  }

  function Picked(rows: seq<CombinedRow>, f: Field): (r: seq<Row>)
    ensures |r| == |rows| && forall i | 0 <= i < |rows| :: r[i] == Row(rows[i].period, Column(rows[i], f))
  {
    seq(|rows|, i requires 0 <= i < |rows| => Row(rows[i].period, Column(rows[i], f)))
  }

  lemma FieldHits(us: seq<UsageRow>, f: Field, g: Grain, b: nat, lo: int, hi: int)
    ensures BucketHas(FieldSamples(f, us), g, b, lo, hi) <==> BucketHas(FieldSamples(Calls, us), g, b, lo, hi)
  {
    forall e, f | BucketHas(FieldSamples(e, us), g, b, lo, hi)
      ensures BucketHas(FieldSamples(f, us), g, b, lo, hi)
    {
      var s :| s in FieldSamples(e, us) && Hits(s, g, b, lo, hi);
      var i :| 0 <= i < |us| && FieldSamples(e, us)[i] == s;
      assert FieldSamples(f, us)[i] in FieldSamples(f, us) && Hits(FieldSamples(f, us)[i], g, b, lo, hi);
    }
  }

  lemma {:induction false} SameMembersSame(ps: seq<nat>, qs: seq<nat>)
    requires Increasing(ps) && Increasing(qs) && forall p :: p in ps <==> p in qs
    ensures ps == qs
  {
    assert (ps != [] ==> ps[0] in qs) && (qs != [] ==> qs[0] in ps);
    if ps != [] {
      assert ps[0] == qs[0];
      forall p
        ensures p in ps[1..] <==> p in qs[1..]
      {
        assert p in ps <==> p == ps[0] || p in ps[1..];
        assert p in qs <==> p == qs[0] || p in qs[1..];
      }
      SameMembersSame(ps[1..], qs[1..]);
    }
  }

  /** A column of the combined query is the query of that metric alone. */
  lemma CombinedIsEach(us: seq<UsageRow>, f: Field, g: Grain, lo: int, hi: int)
    ensures Picked(CombinedQuery(us, g, lo, hi), f) == Query(FieldSamples(f, us), g, lo, hi)
  {
    hide BucketHas;
    forall p: nat
      ensures p in Periods(FieldSamples(f, us), g, lo, hi) <==> p in Periods(FieldSamples(Calls, us), g, lo, hi)
    {
      FieldHits(us, f, g, p, lo, hi);
    }
    SameMembersSame(Periods(FieldSamples(f, us), g, lo, hi), Periods(FieldSamples(Calls, us), g, lo, hi));
  }

  // ---------------------------------------------------------------- buckets

  lemma {:induction false} NoHitsNoSum(ss: seq<Sample>, g: Grain, b: nat, lo: int, hi: int)
    requires !BucketHas(ss, g, b, lo, hi)
    ensures BucketSum(ss, g, b, lo, hi) == 0.0
  {
    if ss != [] {
      var rest := ss[..|ss| - 1];
      assert ss[|ss| - 1] in ss && forall s | s in rest :: s in ss;
      NoHitsNoSum(rest, g, b, lo, hi);
    }
  }

  /** A bucket that starts inside the window is not cut by its lower bound. */
  lemma {:induction false} LowerBoundBelowBucket(ss: seq<Sample>, g: Grain, b: nat, lo: int, lo': int, hi: int)
    requires lo <= b && lo' <= b
    ensures BucketSum(ss, g, b, lo, hi) == BucketSum(ss, g, b, lo', hi)
    ensures BucketHas(ss, g, b, lo, hi) == BucketHas(ss, g, b, lo', hi)
  {
    assert forall s :: Hits(s, g, b, lo, hi) == Hits(s, g, b, lo', hi);
    if ss != [] {
      LowerBoundBelowBucket(ss[..|ss| - 1], g, b, lo, lo', hi);
    }
  }

  predicate NonNegative(ss: seq<Sample>) {
    forall i | 0 <= i < |ss| :: Or0(ss[i].amount) >= 0.0
  }

  /** More rows and a wider window never make a bucket smaller. */
  lemma {:induction false} BucketGrows(ss: seq<Sample>, more: seq<Sample>, g: Grain, b: nat, lo: int, lo': int,
                                       hi: int, hi': int)
    requires ss <= more && NonNegative(more) && lo' <= lo && hi <= hi'
    ensures 0.0 <= BucketSum(ss, g, b, lo, hi) <= BucketSum(more, g, b, lo', hi')
    decreases |more|
  {
    if more == [] {
    } else if |ss| < |more| {
      BucketGrows(ss, more[..|more| - 1], g, b, lo, lo', hi, hi');
    } else {
      BucketGrows(ss[..|ss| - 1], more[..|more| - 1], g, b, lo, lo', hi, hi');
    }
  }

  // ---------------------------------------------------------------- days make a month

  /** Add up the days of month `b`. */
  function DaysSum(ps: seq<nat>, ss: seq<Sample>, b: nat, lo: int, hi: int): real {
    if ps == [] then 0.0 else
      var p := ps[|ps| - 1];
      DaysSum(ps[..|ps| - 1], ss, b, lo, hi) + if Trunc(ByMonth, p) == b then BucketSum(ss, ByDay, p, lo, hi) else 0.0
  }

  lemma {:induction false} DaysSumOfNothing(ps: seq<nat>, b: nat, lo: int, hi: int)
    ensures DaysSum(ps, [], b, lo, hi) == 0.0
  {
    if ps != [] {
      DaysSumOfNothing(ps[..|ps| - 1], b, lo, hi);
    }
  }

  lemma MonthOfItsDay(t: nat)
    ensures Trunc(ByMonth, Trunc(ByDay, t)) == Trunc(ByMonth, t)
  {
    MonthOfDay(t);
  }

  /** One more row adds to exactly one of the days. */
  lemma {:induction false} DaysSumStep(ps: seq<nat>, ss: seq<Sample>, s: Sample, b: nat, lo: int, hi: int)
    requires Increasing(ps)
    ensures DaysSum(ps, ss + [s], b, lo, hi) == DaysSum(ps, ss, b, lo, hi) +
              if Trunc(ByDay, s.at) in ps && Hits(s, ByMonth, b, lo, hi) then Or0(s.amount) else 0.0
    decreases |ps|
  {
    hide Trunc;
    if ps != [] {
      var p, rest := ps[|ps| - 1], ps[..|ps| - 1];
      DaysSumStep(rest, ss, s, b, lo, hi);
      MonthOfItsDay(s.at);
      assert (ss + [s])[..|ss|] == ss;
      assert forall q :: q in ps <==> q in rest || q == p;
      assert p !in rest;
    }
  }

  /** The daily rows of a month add up to the month. */
  lemma {:induction false} DaysMakeMonth(ps: seq<nat>, ss: seq<Sample>, b: nat, lo: int, hi: int)
    requires Increasing(ps) && forall s | s in ss && InWindow(s.at, lo, hi) :: Trunc(ByDay, s.at) in ps
    ensures DaysSum(ps, ss, b, lo, hi) == BucketSum(ss, ByMonth, b, lo, hi)
    decreases |ss|
  {
    hide Trunc;
    if ss == [] {
      DaysSumOfNothing(ps, b, lo, hi);
    } else {
      var s, rest := ss[|ss| - 1], ss[..|ss| - 1];
      assert s in ss && forall x | x in rest :: x in ss;
      DaysMakeMonth(ps, rest, b, lo, hi);
      DaysSumStep(ps, rest, s, b, lo, hi);
      assert rest + [s] == ss;
    }
  }
}
