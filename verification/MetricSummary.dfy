/** The in-memory aggregation behind the summary endpoint: totals, average, minimum and maximum
    per metric. */
module MetricSummary {
  import opened MetricKind
  import opened BucketCache
  import opened GroupBy
  import opened MetricSeries
  import opened Sorting

  datatype Entry = Entry(metric: string, kind: Kind, totalValue: real, totalCount: nat,
                         average: real, minimum: real, maximum: real)

  /** What the loop keeps per metric. */
  datatype Tally = Tally(totalValue: real, totalCount: nat, values: seq<real>, kind: Kind)

  function NameOf(r: Record): string { r.metric }

  function ValuesOf(rs: seq<Record>, n: string): seq<real> {
    if rs == [] then [] else
      var r := rs[|rs| - 1];
      ValuesOf(rs[..|rs| - 1], n) + if r.metric == n then [ValueOf(r)] else []
  }

  function MinOf(vs: seq<real>): real
    requires vs != []
  {
    var v := vs[|vs| - 1];
    if |vs| == 1 then v else var m := MinOf(vs[..|vs| - 1]); if v < m then v else m
  }

  function MaxOf(vs: seq<real>): real
    requires vs != []
  {
    var v := vs[|vs| - 1];
    if |vs| == 1 then v else var m := MaxOf(vs[..|vs| - 1]); if v > m then v else m
  }

  lemma {:induction false} MinIsLeast(vs: seq<real>)
    requires vs != []
    ensures MinOf(vs) in vs && forall i | 0 <= i < |vs| :: MinOf(vs) <= vs[i]
  {
    if |vs| > 1 {
      MinIsLeast(vs[..|vs| - 1]);
    }
  }

  lemma {:induction false} MaxIsGreatest(vs: seq<real>)
    requires vs != []
    ensures MaxOf(vs) in vs && forall i | 0 <= i < |vs| :: vs[i] <= MaxOf(vs)
  {
    if |vs| > 1 {
      MaxIsGreatest(vs[..|vs| - 1]);
    }
  }

  function Same(v: real): real { v }

  /** A sum lies between the count times any lower and any upper bound. */
  lemma {:induction false} SumBetween(vs: seq<real>, lo: real, hi: real)
    requires forall i | 0 <= i < |vs| :: lo <= vs[i] <= hi
    ensures lo * |vs| as real <= Sum(vs, Same) <= hi * |vs| as real
  {
    if vs != [] {
      var n := |vs| - 1;
      SumBetween(vs[..n], lo, hi);
      assert lo * |vs| as real == lo * n as real + lo && hi * |vs| as real == hi * n as real + hi;
    }
  }

  lemma Quotient(x: real, n: nat, s: real, y: real)
    requires n > 0 && x * n as real <= s <= y * n as real
    ensures x <= s / n as real <= y && (s / n as real) * n as real == s
  {
  }

  function AverageOf(total: real, n: nat): real
    requires n > 0
  {
    total / n as real
  }

  predicate IsAverage(a: real, n: nat, total: real) { a * n as real == total }

  lemma AverageBetween(vs: seq<real>, total: real)
    requires vs != [] && total == Sum(vs, Same)
    ensures MinOf(vs) <= AverageOf(total, |vs|) <= MaxOf(vs) && IsAverage(AverageOf(total, |vs|), |vs|, total)
  {
    MinIsLeast(vs);
    MaxIsGreatest(vs);
    SumBetween(vs, MinOf(vs), MaxOf(vs));
    Quotient(MinOf(vs), |vs|, total, MaxOf(vs));
  }

  lemma {:induction false} ValuesSum(rs: seq<Record>, n: string)
    ensures Sum(ValuesOf(rs, n), Same) == GroupSum(rs, NameOf, ValueOf, n)
    ensures ValuesOf(rs, n) != [] <==> HasKey(rs, NameOf, n)
  {
    if rs != [] {
      var r, rest := rs[|rs| - 1], rs[..|rs| - 1];
      ValuesSum(rest, n);
      var vs := ValuesOf(rest, n);
      assert (vs + [ValueOf(r)])[..|vs|] == vs;
      assert vs + [] == vs;
      if HasKey(rest, NameOf, n) {
        var i :| 0 <= i < |rest| && NameOf(rest[i]) == n;
        assert NameOf(rs[i]) == n;
      }
      assert NameOf(rs[|rs| - 1]) == r.metric;
    }
  }

  /** What the records say about a metric: its totals, and the average, least and greatest value. */
  ghost predicate IsEntry(e: Entry, records: seq<Record>) {
    var vs := ValuesOf(records, e.metric);
    && e.totalValue == GroupSum(records, NameOf, ValueOf, e.metric)
    && e.totalCount as real == GroupSum(records, NameOf, RealCount, e.metric)
    && e.kind == LastKind(records, NameOf, e.metric)
    && vs != [] && IsAverage(e.average, |vs|, e.totalValue)
    && e.minimum in vs && e.maximum in vs
    && forall i | 0 <= i < |vs| :: e.minimum <= vs[i] <= e.maximum
  }

  ghost predicate IsTally(t: Tally, rs: seq<Record>, n: string) {
    && t.totalValue == GroupSum(rs, NameOf, ValueOf, n)
    && t.totalCount as real == GroupSum(rs, NameOf, RealCount, n)
    && t.values == ValuesOf(rs, n)
    && t.kind == LastKind(rs, NameOf, n)
  }

  const NO_TALLY: Tally := Tally(0.0, 0, [], Counter)

  function Tallied(t: Tally, r: Record): Tally {
    Tally(t.totalValue + ValueOf(r), t.totalCount + CountOf(r), t.values + [ValueOf(r)], r.kind)
  }

  lemma NoTallies(records: seq<Record>)
    ensures forall n :: IsTally(NO_TALLY, records[..0], n) && !HasKey(records[..0], NameOf, n)
  {
  }

  lemma NextTally(records: seq<Record>, i: nat)
    requires i < |records|
    ensures forall n :: HasKey(records[..i + 1], NameOf, n) <==>
      HasKey(records[..i], NameOf, n) || records[i].metric == n
    ensures forall t, n | IsTally(t, records[..i], n) ::
      IsTally(if records[i].metric == n then Tallied(t, records[i]) else t, records[..i + 1], n)
  {
    assert records[..i + 1][..i] == records[..i];
    forall n
      ensures HasKey(records[..i + 1], NameOf, n) <==> HasKey(records[..i], NameOf, n) || records[i].metric == n
    {
      NextHasKeyAt(records, i, NameOf, n);
    }
  }

  method TallyRecords(records: seq<Record>) returns (tallies: map<string, Tally>, order: seq<string>)
    ensures Distinct(order) && forall n :: n in tallies <==> n in order
    ensures forall n :: n in tallies <==> HasKey(records, NameOf, n)
    ensures forall n | n in tallies :: IsTally(tallies[n], records, n)
  {
    hide IsTally;
    hide HasKey;
    tallies, order := map[], [];
    NoTallies(records);
    for i := 0 to |records|
      invariant Distinct(order) && forall n :: n in tallies <==> n in order
      invariant forall n :: n in tallies <==> HasKey(records[..i], NameOf, n)
      invariant forall n :: IsTally(if n in tallies then tallies[n] else NO_TALLY, records[..i], n)
    {
      var r := records[i];
      NextTally(records, i);
      if r.metric !in tallies {
        tallies, order := tallies[r.metric := NO_TALLY], order + [r.metric];
      }
      var t := tallies[r.metric];
      tallies := tallies[r.metric := Tally(t.totalValue + ValueOf(r), t.totalCount + CountOf(r),
                                           t.values + [ValueOf(r)], r.kind)];
    }
    assert records[..|records|] == records;
  }

  function EntryOf(n: string, t: Tally): Entry {
    if t.values == [] then Entry(n, t.kind, t.totalValue, t.totalCount, 0.0, 0.0, 0.0)
    else Entry(n, t.kind, t.totalValue, t.totalCount, AverageOf(t.totalValue, |t.values|), MinOf(t.values),
               MaxOf(t.values))
  }

  lemma EntryIs(n: string, t: Tally, records: seq<Record>)
    requires IsTally(t, records, n) && HasKey(records, NameOf, n)
    ensures IsEntry(EntryOf(n, t), records)
    ensures EntryOf(n, t).minimum <= EntryOf(n, t).average <= EntryOf(n, t).maximum
  {
    hide AverageOf;
    hide IsAverage;
    ValuesSum(records, n);
    MinIsLeast(t.values);
    MaxIsGreatest(t.values);
    AverageBetween(t.values, t.totalValue);
  }

  function EntryLe(): (Entry, Entry) -> bool { (x: Entry, y: Entry) => StringLe(x.metric, y.metric) }

  lemma EntryLeIsOrder()
    ensures IsOrder(EntryLe())
  {
    forall x: Entry, y: Entry
      ensures EntryLe()(x, y) || EntryLe()(y, x)
    {
      StringOrder(x.metric, y.metric, "");
    }
    forall x: Entry, y: Entry, z: Entry | EntryLe()(x, y) && EntryLe()(y, z)
      ensures EntryLe()(x, z)
    {
      StringOrder(x.metric, y.metric, z.metric);
    }
  }

  function NamesOf(es: seq<Entry>): (ns: seq<string>)
    ensures |ns| == |es| && forall i | 0 <= i < |es| :: ns[i] == es[i].metric
  {
    seq(|es|, i requires 0 <= i < |es| => es[i].metric)
  }

  function EntryTotal(e: Entry): real { e.totalValue }

  lemma {:induction false} EntriesAreGroups(es: seq<Entry>, records: seq<Record>)
    requires forall i | 0 <= i < |es| :: IsEntry(es[i], records)
    ensures Sum(es, EntryTotal) == GroupsWhere(NamesOf(es), records, NameOf, ValueOf, (n: string) => true)
  {
    if es != [] {
      EntriesAreGroups(es[..|es| - 1], records);
      assert NamesOf(es)[..|es| - 1] == NamesOf(es[..|es| - 1]);
    }
  }

  lemma EntriesStayDistinct(es: seq<Entry>, sorted: seq<Entry>, order: seq<string>)
    requires multiset(sorted) == multiset(es) && Distinct(order)
    requires |es| == |order| && forall i | 0 <= i < |es| :: es[i].metric == order[i]
    ensures Distinct(NamesOf(sorted)) && (forall n :: n in NamesOf(sorted) <==> n in order) &&
      forall e :: e in sorted <==> e in es
  {
    PermutationOfDistinct(es, sorted);
    forall i, j | 0 <= i < j < |sorted|
      ensures sorted[i].metric != sorted[j].metric
    {
      assert sorted[i] in es && sorted[j] in es && sorted[i] != sorted[j];
    }
    forall n
      ensures n in NamesOf(sorted) <==> n in order
    {
      if n in NamesOf(sorted) {
        var i :| 0 <= i < |sorted| && NamesOf(sorted)[i] == n;
        assert sorted[i] in es;
      }
      if n in order {
        var i :| 0 <= i < |order| && order[i] == n;
        assert es[i] in sorted;
        var j :| 0 <= j < |sorted| && sorted[j] == es[i];
        assert NamesOf(sorted)[j] == n;
      }
    }
  }

  /** One entry per metric that occurs, by name; each with the totals of its records and its
      average between its least and its greatest value; together they total all records. */
  method Summarize(records: seq<Record>) returns (summary: seq<Entry>)
    ensures Distinct(NamesOf(summary)) && SortedBy(EntryLe(), summary)
    ensures forall n :: n in NamesOf(summary) <==> HasKey(records, NameOf, n)
    ensures forall i | 0 <= i < |summary| ::
      IsEntry(summary[i], records) && summary[i].minimum <= summary[i].average <= summary[i].maximum
    ensures Sum(summary, EntryTotal) == Sum(records, ValueOf)
    ensures forall i, j | 0 <= i < j < |summary| :: StringLe(summary[i].metric, summary[j].metric)
  {
    hide HasKey;
    hide IsTally;
    hide IsEntry;
    var tallies, order := TallyRecords(records);
    var entries := seq(|order|, i requires 0 <= i < |order| => EntryOf(order[i], tallies[order[i]]));
    forall i | 0 <= i < |entries|
      ensures IsEntry(entries[i], records) && entries[i].minimum <= entries[i].average <= entries[i].maximum
    {
      assert order[i] in order;
      EntryIs(order[i], tallies[order[i]], records);
    }
    hide EntryOf;
    summary := Sort(EntryLe(), entries);
    EntryLeIsOrder();
    SortSorts(EntryLe(), entries);
    SortPermutes(EntryLe(), entries);
    EntriesStayDistinct(entries, summary, order);
    forall i | 0 <= i < |summary|
      ensures IsEntry(summary[i], records) && summary[i].minimum <= summary[i].average <= summary[i].maximum
    {
      assert summary[i] in entries;
    }
    ConserveSummary(summary, records);
  }

  lemma ConserveSummary(summary: seq<Entry>, records: seq<Record>)
    requires Distinct(NamesOf(summary)) && forall n :: n in NamesOf(summary) <==> HasKey(records, NameOf, n)
    requires forall i | 0 <= i < |summary| :: IsEntry(summary[i], records)
    ensures Sum(summary, EntryTotal) == Sum(records, ValueOf)
  {
    EntriesAreGroups(summary, records);
    forall i | 0 <= i < |records|
      ensures NameOf(records[i]) in NamesOf(summary)
    {
      assert HasKey(records, NameOf, NameOf(records[i]));
    }
    GroupsAddUp(NamesOf(summary), records, NameOf, ValueOf, (n: string) => true);
    AllRows(records, NameOf, ValueOf);
  }

  /** The values of a metric, nulls as zero, in order. */
  lemma {:induction false} ValuesAre(rs: seq<Record>, n: string, x: real)
    ensures x in ValuesOf(rs, n) <==>
            exists r | r in rs :: r.metric == n && x == match r.value case Some(y) => y case None => 0.0
  {
    if rs != [] {
      var last, rest := rs[|rs| - 1], rs[..|rs| - 1];
      ValuesAre(rest, n, x);
      assert forall r :: r in rs <==> r in rest || r == last;
    }
  }

  /** An entry adds up its metric's records, and its average times their number is the sum. */
  lemma EntryIsDirect(e: Entry, records: seq<Record>)
    requires IsEntry(e, records)
    ensures
      var mine := (r: Record) => r.metric == e.metric;
      && e.totalValue == SumIf(records, mine, (r: Record) => match r.value case Some(x) => x case None => 0.0)
      && e.totalCount as real ==
         SumIf(records, mine, (r: Record) => match r.count case Some(n) => n as real case None => 0.0)
      && e.average * SumIf(records, mine, (r: Record) => 1.0) == e.totalValue
  {
    var mine := (r: Record) => r.metric == e.metric;
    GroupIsSumIf(records, NameOf, ValueOf, e.metric, mine,
                 (r: Record) => match r.value case Some(x) => x case None => 0.0);
    GroupIsSumIf(records, NameOf, RealCount, e.metric, mine,
                 (r: Record) => match r.count case Some(n) => n as real case None => 0.0);
    ValuesCounted(records, e.metric);
    hide ValuesOf;
    hide GroupSum;
    hide LastKind;
    hide SumIf;
  }

  /** Its minimum and its maximum are values of its metric's records, nulls as zero, and bound them all. */
  lemma BoundsAreDirect(e: Entry, records: seq<Record>)
    requires IsEntry(e, records)
    ensures forall r | r in records && r.metric == e.metric ::
      e.minimum <= (match r.value case Some(x) => x case None => 0.0) <= e.maximum
    ensures exists r | r in records && r.metric == e.metric ::
      e.minimum == match r.value case Some(x) => x case None => 0.0
    ensures exists r | r in records && r.metric == e.metric ::
      e.maximum == match r.value case Some(x) => x case None => 0.0
  {
    hide GroupSum;
    hide LastKind;
    hide IsAverage;
    ValuesAre(records, e.metric, e.minimum);
    ValuesAre(records, e.metric, e.maximum);
    forall r | r in records && r.metric == e.metric
      ensures e.minimum <= (match r.value case Some(x) => x case None => 0.0) <= e.maximum
    {
      var x := match r.value case Some(y) => y case None => 0.0;
      ValuesAre(records, e.metric, x);
      var i :| 0 <= i < |ValuesOf(records, e.metric)| && ValuesOf(records, e.metric)[i] == x;
    }
  }

  lemma {:induction false} ValuesCounted(rs: seq<Record>, n: string)
    ensures |ValuesOf(rs, n)| as real == SumIf(rs, (r: Record) => r.metric == n, (r: Record) => 1.0)
  {
    if rs != [] {
      ValuesCounted(rs[..|rs| - 1], n);
    }
  }
}
