/** Usage by deployment: executions, model usage and pages are folded into one result per
    deployment that has an execution. */
module DeploymentUsage {
  import opened GroupBy
  import opened Options
  import opened Sorting

  type Time = int

  datatype Status = Completed | Error | Unfinished

  /** Rows as the three queries return them; sums over nothing but nulls are `None`. */
  datatype ExecRow = ExecRow(id: string, dep: string, status: Status, at: Option<Time>)
  datatype FileRow = FileRow(id: string, exec: string)
  datatype PageRow = PageRow(run: string, pages: Option<nat>)
  datatype ExecUsageRow = ExecUsageRow(exec: string, tokens: Option<nat>, cost: Option<real>, calls: Option<nat>)

  function OrZero(n: Option<nat>): nat { if n.Some? then n.value else 0 }
  function OrNothing(x: Option<real>): real { if x.Some? then x.value else 0.0 }

  function DepOf(r: ExecRow): string { r.dep }
  function One(r: ExecRow): real { 1.0 }
  function OneIfCompleted(r: ExecRow): real { if r.status.Completed? then 1.0 else 0.0 }
  function OneIfFailed(r: ExecRow): real { if r.status.Error? then 1.0 else 0.0 }

  // ---------------------------------------------------------------- executions

  datatype Stats = Stats(total: nat, completed: nat, failed: nat, first: Option<Time>, last: Option<Time>)

  const NO_STATS: Stats := Stats(0, 0, 0, None, None)

  predicate Stamped(rows: seq<ExecRow>, d: string, i: int)
    requires 0 <= i < |rows|
  {
    rows[i].dep == d && rows[i].at.Some?
  }

  /** `first` is the earliest time stamp of the deployment's rows, if any has one. */
  ghost predicate IsFirst(first: Option<Time>, rows: seq<ExecRow>, d: string) {
    match first
    case None => forall i | 0 <= i < |rows| :: !Stamped(rows, d, i)
    case Some(t) =>
      && (exists i | 0 <= i < |rows| :: Stamped(rows, d, i) && rows[i].at.value == t)
      && forall i | 0 <= i < |rows| && Stamped(rows, d, i) :: t <= rows[i].at.value
  }

  ghost predicate IsLast(last: Option<Time>, rows: seq<ExecRow>, d: string) {
    match last
    case None => forall i | 0 <= i < |rows| :: !Stamped(rows, d, i)
    case Some(t) =>
      && (exists i | 0 <= i < |rows| :: Stamped(rows, d, i) && rows[i].at.value == t)
      && forall i | 0 <= i < |rows| && Stamped(rows, d, i) :: rows[i].at.value <= t
  }

  ghost predicate IsStats(s: Stats, rows: seq<ExecRow>, d: string) {
    && s.total as real == GroupSum(rows, DepOf, One, d)
    && s.completed as real == GroupSum(rows, DepOf, OneIfCompleted, d)
    && s.failed as real == GroupSum(rows, DepOf, OneIfFailed, d)
    && s.completed + s.failed <= s.total
    && IsFirst(s.first, rows, d) && IsLast(s.last, rows, d)
  }

  lemma FirstBeforeLast(s: Stats, rows: seq<ExecRow>, d: string)
    requires IsStats(s, rows, d)
    ensures (s.first.None? <==> s.last.None?) && (s.first.Some? ==> s.first.value <= s.last.value)
  {
    if s.first.Some? {
      var i :| 0 <= i < |rows| && Stamped(rows, d, i) && rows[i].at.value == s.first.value;
    }
  }

  function Earlier(f: Option<Time>, t: Time): Option<Time> { if f.None? || t < f.value then Some(t) else f }
  function Later(l: Option<Time>, t: Time): Option<Time> { if l.None? || t > l.value then Some(t) else l }

  /** One execution more. */
  function Counted(s: Stats, r: ExecRow): Stats {
    Stats(s.total + 1,
          s.completed + if r.status.Completed? then 1 else 0,
          s.failed + if r.status.Error? then 1 else 0,
          if r.at.Some? then Earlier(s.first, r.at.value) else s.first,
          if r.at.Some? then Later(s.last, r.at.value) else s.last)
  }

  lemma FirstMoves(first: Option<Time>, rows: seq<ExecRow>, r: ExecRow, d: string)
    requires IsFirst(first, rows, d)
    ensures IsFirst(if r.dep == d && r.at.Some? then Earlier(first, r.at.value) else first, rows + [r], d)
  {
    var after := rows + [r];
    assert forall i | 0 <= i < |rows| :: Stamped(after, d, i) == Stamped(rows, d, i) && after[i] == rows[i];
    assert Stamped(after, d, |rows|) <==> r.dep == d && r.at.Some?;
    if first.Some? {
      var i :| 0 <= i < |rows| && Stamped(rows, d, i) && rows[i].at.value == first.value;
      assert Stamped(after, d, i);
    }
  }

  lemma LastMoves(last: Option<Time>, rows: seq<ExecRow>, r: ExecRow, d: string)
    requires IsLast(last, rows, d)
    ensures IsLast(if r.dep == d && r.at.Some? then Later(last, r.at.value) else last, rows + [r], d)
  {
    var after := rows + [r];
    assert forall i | 0 <= i < |rows| :: Stamped(after, d, i) == Stamped(rows, d, i) && after[i] == rows[i];
    assert Stamped(after, d, |rows|) <==> r.dep == d && r.at.Some?;
    if last.Some? {
      var i :| 0 <= i < |rows| && Stamped(rows, d, i) && rows[i].at.value == last.value;
      assert Stamped(after, d, i);
    }
  }

  lemma NextExec(rows: seq<ExecRow>, i: nat, s: Stats, d: string)
    requires i < |rows| && IsStats(s, rows[..i], d)
    ensures IsStats(if rows[i].dep == d then Counted(s, rows[i]) else s, rows[..i + 1], d)
  {
    assert rows[..i + 1] == rows[..i] + [rows[i]] && rows[..i + 1][..i] == rows[..i];
    FirstMoves(s.first, rows[..i], rows[i], d);
    LastMoves(s.last, rows[..i], rows[i], d);
  }

  /** The deployment of an execution; the last row of an id wins. */
  function ExecToDep(rows: seq<ExecRow>): map<string, string> {
    if rows == [] then map[] else ExecToDep(rows[..|rows| - 1])[rows[|rows| - 1].id := rows[|rows| - 1].dep]
  }

  method BuildExecStats(rows: seq<ExecRow>)
    returns (execToDep: map<string, string>, stats: map<string, Stats>, order: seq<string>)
    ensures execToDep == ExecToDep(rows)
    ensures Distinct(order) && forall d :: d in stats <==> d in order
    ensures forall d :: d in stats <==> HasKey(rows, DepOf, d)
    ensures forall d | d in stats :: IsStats(stats[d], rows, d)
  {
    hide IsStats;
    hide HasKey;
    execToDep, stats, order := map[], map[], [];
    NoExecs(rows);
    for i := 0 to |rows|
      invariant execToDep == ExecToDep(rows[..i])
      invariant Distinct(order) && forall d :: d in stats <==> d in order
      invariant forall d :: d in stats <==> HasKey(rows[..i], DepOf, d)
      invariant forall d :: IsStats(if d in stats then stats[d] else NO_STATS, rows[..i], d)
    {
      var e := rows[i];
      assert rows[..i + 1][..i] == rows[..i];
      forall d
        ensures HasKey(rows[..i + 1], DepOf, d) <==> HasKey(rows[..i], DepOf, d) || e.dep == d
      {
        NextHasKeyAt(rows, i, DepOf, d);
      }
      forall d
        ensures IsStats(if e.dep == d then Counted(if d in stats then stats[d] else NO_STATS, e)
                        else if d in stats then stats[d] else NO_STATS, rows[..i + 1], d)
      {
        NextExec(rows, i, if d in stats then stats[d] else NO_STATS, d);
      }
      execToDep := execToDep[e.id := e.dep];
      if e.dep !in stats {
        stats, order := stats[e.dep := NO_STATS], order + [e.dep];
      }
      var s := stats[e.dep];
      s := s.(total := s.total + 1);
      match e.status {
        case Completed => s := s.(completed := s.completed + 1);
        case Error => s := s.(failed := s.failed + 1);
        case Unfinished =>
      }
      if e.at.Some? {
        s := s.(first := if s.first.None? || e.at.value < s.first.value then e.at else s.first,
                last := if s.last.None? || e.at.value > s.last.value then e.at else s.last);
      }
      stats := stats[e.dep := s];
    }
    assert rows[..|rows|] == rows;
  }

  lemma NoExecs(rows: seq<ExecRow>)
    ensures forall d :: IsStats(NO_STATS, rows[..0], d) && !HasKey(rows[..0], DepOf, d)
  {
  }

  // ---------------------------------------------------------------- pages and usage

  /** What an execution id or a file id leads to; "" for nothing, which the loops skip as they skip
      an empty deployment. */
  function Target(m: map<string, string>, id: string): string { if id in m then m[id] else "" }

  function UsageDep(execToDep: map<string, string>): ExecUsageRow -> string {
    (r: ExecUsageRow) => Target(execToDep, r.exec)
  }

  function PageDep(fileToExec: map<string, string>, execToDep: map<string, string>): PageRow -> string {
    (r: PageRow) => var exec := Target(fileToExec, r.run); if exec == "" then "" else Target(execToDep, exec)
  }

  function Tokens(r: ExecUsageRow): real { OrZero(r.tokens) as real }
  function Costs(r: ExecUsageRow): real { OrNothing(r.cost) }
  function Calls(r: ExecUsageRow): real { OrZero(r.calls) as real }
  function Pages(r: PageRow): real { OrZero(r.pages) as real }

  datatype Usage = Usage(tokens: nat, cost: real, calls: nat)

  const NO_USAGE: Usage := Usage(0, 0.0, 0)

  function UsageOf(agg: map<string, Usage>, d: string): Usage { if d in agg then agg[d] else NO_USAGE }
  function PagesOf(agg: map<string, nat>, d: string): nat { if d in agg then agg[d] else 0 }

  ghost predicate IsUsage(u: Usage, rows: seq<ExecUsageRow>, dep: ExecUsageRow -> string, d: string) {
    && u.tokens as real == GroupSum(rows, dep, Tokens, d)
    && u.cost == GroupSum(rows, dep, Costs, d)
    && u.calls as real == GroupSum(rows, dep, Calls, d)
  }

  lemma NoUsageYet(rows: seq<ExecUsageRow>, dep: ExecUsageRow -> string)
    ensures forall d :: IsUsage(NO_USAGE, rows[..0], dep, d)
  {
  }

  lemma NextUsage(rows: seq<ExecUsageRow>, i: nat, dep: ExecUsageRow -> string, u: Usage, d: string)
    requires i < |rows| && IsUsage(u, rows[..i], dep, d)
    ensures
      var r := rows[i];
      var more := Usage(u.tokens + OrZero(r.tokens), u.cost + OrNothing(r.cost), u.calls + OrZero(r.calls));
      IsUsage(if dep(r) == d then more else u, rows[..i + 1], dep, d)
  {
    assert rows[..i + 1][..i] == rows[..i];
  }

  /** Usage rows of unknown executions are skipped. */
  method AggregateUsage(rows: seq<ExecUsageRow>, execToDep: map<string, string>)
    returns (agg: map<string, Usage>, order: seq<string>)
    ensures "" !in agg && Distinct(order) && forall d :: d in agg <==> d in order
    ensures forall d | d != "" :: IsUsage(UsageOf(agg, d), rows, UsageDep(execToDep), d)
    ensures forall d | d in agg :: HasKey(rows, UsageDep(execToDep), d)
  {
    hide IsUsage;
    hide HasKey;
    agg, order := map[], [];
    var dep := UsageDep(execToDep);
    NoUsageYet(rows, dep);
    NoKeyYet(rows, dep);
    for i := 0 to |rows|
      invariant "" !in agg && Distinct(order) && forall d :: d in agg <==> d in order
      invariant forall d | d != "" :: IsUsage(UsageOf(agg, d), rows[..i], dep, d)
      invariant forall d | d in agg :: HasKey(rows[..i], dep, d)
    {
      var row := rows[i];
      ghost var was := agg;
      var d := dep(row);
      if d != "" {
        if d !in agg {
          agg, order := agg[d := NO_USAGE], order + [d];
        }
        agg := agg[d := Usage(agg[d].tokens + OrZero(row.tokens), agg[d].cost + OrNothing(row.cost),
                              agg[d].calls + OrZero(row.calls))];
      }
      forall k | k != ""
        ensures IsUsage(UsageOf(agg, k), rows[..i + 1], dep, k)
      {
        NextUsage(rows, i, dep, UsageOf(was, k), k);
      }
      forall k | k in agg
        ensures HasKey(rows[..i + 1], dep, k)
      {
        NextHasKeyAt(rows, i, dep, k);
      }
    }
    assert rows[..|rows|] == rows;
  }

  lemma NoKeyYet<R, K>(rows: seq<R>, key: R -> K)
    ensures forall k :: !HasKey(rows[..0], key, k)
  {
  }

  function FileToExec(rows: seq<FileRow>): map<string, string> {
    if rows == [] then map[] else FileToExec(rows[..|rows| - 1])[rows[|rows| - 1].id := rows[|rows| - 1].exec]
  }

  lemma NextPages(rows: seq<PageRow>, i: nat, dep: PageRow -> string, n: nat, d: string)
    requires i < |rows| && n as real == GroupSum(rows[..i], dep, Pages, d)
    ensures (if dep(rows[i]) == d then n + OrZero(rows[i].pages) else n) as real ==
      GroupSum(rows[..i + 1], dep, Pages, d)
  {
    assert rows[..i + 1][..i] == rows[..i];
  }

  /** Pages reach a deployment through their file and its execution. */
  method PagesByDeployment(files: seq<FileRow>, rows: seq<PageRow>, execToDep: map<string, string>)
    returns (agg: map<string, nat>)
    ensures "" !in agg
    ensures forall d | d != "" ::
      PagesOf(agg, d) as real == GroupSum(rows, PageDep(FileToExec(files), execToDep), Pages, d)
  {
    hide GroupSum;
    var fileToExec: map<string, string> := map[];
    for i := 0 to |files|
      invariant fileToExec == FileToExec(files[..i])
    {
      assert files[..i + 1][..i] == files[..i];
      fileToExec := fileToExec[files[i].id := files[i].exec];
    }
    assert files[..|files|] == files;
    agg := map[];
    var dep := PageDep(fileToExec, execToDep);
    NoPagesYet(rows, dep);
    for i := 0 to |rows|
      invariant "" !in agg
      invariant forall d | d != "" :: PagesOf(agg, d) as real == GroupSum(rows[..i], dep, Pages, d)
    {
      ghost var was := agg;
      var d := dep(rows[i]);
      if d != "" {
        agg := agg[d := PagesOf(agg, d) + OrZero(rows[i].pages)];
      }
      forall k | k != ""
        ensures PagesOf(agg, k) as real == GroupSum(rows[..i + 1], dep, Pages, k)
      {
        NextPages(rows, i, dep, PagesOf(was, k), k);
      }
    }
    assert rows[..|rows|] == rows;
  }

  lemma NoPagesYet(rows: seq<PageRow>, dep: PageRow -> string)
    ensures forall d :: GroupSum(rows[..0], dep, Pages, d) == 0.0
  {
  }

  // ---------------------------------------------------------------- the report

  datatype Result = Result(dep: string, name: string, usage: Usage, stats: Stats, pages: nat)

  /** Descending by tokens. */
  function MoreTokens(): (Result, Result) -> bool { (x: Result, y: Result) => x.usage.tokens >= y.usage.tokens }

  lemma MoreTokensIsOrder()
    ensures IsOrder(MoreTokens())
  {
  }

  function DepsOf(rs: seq<Result>): (ds: seq<string>)
    ensures |ds| == |rs| && forall i | 0 <= i < |rs| :: ds[i] == rs[i].dep
  {
    seq(|rs|, i requires 0 <= i < |rs| => rs[i].dep)
  }

  /** What the rows say about one deployment. Nothing is ever booked on an empty identifier. */
  ghost predicate IsResult(r: Result, execs: seq<ExecRow>, usage: seq<ExecUsageRow>, files: seq<FileRow>,
                           pages: seq<PageRow>) {
    var m := ExecToDep(execs);
    && IsStats(r.stats, execs, r.dep)
    && (if r.dep == "" then r.usage == NO_USAGE else IsUsage(r.usage, usage, UsageDep(m), r.dep))
    && r.pages as real == (if r.dep == "" then 0.0 else GroupSum(pages, PageDep(FileToExec(files), m), Pages, r.dep))
  }

  /** One result for each deployment that has an execution, by tokens. */
  ghost predicate IsReport(rs: seq<Result>, execs: seq<ExecRow>, usage: seq<ExecUsageRow>, files: seq<FileRow>,
                           pages: seq<PageRow>) {
    && Distinct(DepsOf(rs))
    && (forall d :: d in DepsOf(rs) <==> HasKey(execs, DepOf, d))
    && (forall i | 0 <= i < |rs| :: IsResult(rs[i], execs, usage, files, pages))
    && SortedBy(MoreTokens(), rs)
  }

  lemma {:induction false} MappedToExec(execs: seq<ExecRow>, id: string)
    ensures id in ExecToDep(execs) ==> HasKey(execs, DepOf, ExecToDep(execs)[id])
  {
    if execs != [] {
      var n := |execs| - 1;
      MappedToExec(execs[..n], id);
      assert DepOf(execs[n]) == execs[n].dep;
      if execs[n].id != id && id in ExecToDep(execs) {
        var i :| 0 <= i < n && DepOf(execs[..n][i]) == ExecToDep(execs)[id];
        assert DepOf(execs[i]) == ExecToDep(execs)[id];
      }
    }
  }

  lemma UsageKeysAreDeps(execs: seq<ExecRow>, usage: seq<ExecUsageRow>, d: string)
    requires d != "" && HasKey(usage, UsageDep(ExecToDep(execs)), d)
    ensures HasKey(execs, DepOf, d)
  {
    var i :| 0 <= i < |usage| && UsageDep(ExecToDep(execs))(usage[i]) == d;
    MappedToExec(execs, usage[i].exec);
  }

  /** Deployments without usage get an empty entry, behind the others. */
  method AddUnused(used: map<string, Usage>, usedOrder: seq<string>, statsOrder: seq<string>)
    returns (agg: map<string, Usage>, order: seq<string>)
    requires Distinct(usedOrder) && forall d :: d in used <==> d in usedOrder
    ensures Distinct(order) && forall d :: d in agg <==> d in order
    ensures forall d :: d in agg <==> d in used || d in statsOrder
    ensures forall d | d in agg :: agg[d] == UsageOf(used, d)
  {
    agg, order := used, usedOrder;
    for i := 0 to |statsOrder|
      invariant Distinct(order) && forall d :: d in agg <==> d in order
      invariant forall d :: d in agg <==> d in used || d in statsOrder[..i]
      invariant forall d | d in agg :: agg[d] == UsageOf(used, d)
    {
      assert statsOrder[..i + 1] == statsOrder[..i] + [statsOrder[i]];
      if statsOrder[i] !in agg {
        agg, order := agg[statsOrder[i] := NO_USAGE], order + [statsOrder[i]];
      }
    }
    assert statsOrder[..|statsOrder|] == statsOrder;
  }

  function NameOf(depNames: map<string, string>, d: string): string {
    if d in depNames then depNames[d] else "Unknown"
  }

  method Rank(items: seq<Result>, order: seq<string>) returns (results: seq<Result>)
    requires Distinct(order) && |items| == |order| && forall i | 0 <= i < |items| :: items[i].dep == order[i]
    ensures SortedBy(MoreTokens(), results) && (forall x :: x in results <==> x in items)
    ensures forall i, j | 0 <= i < j < |results| :: results[i].usage.tokens >= results[j].usage.tokens
    ensures Distinct(DepsOf(results)) && forall d :: d in DepsOf(results) <==> d in order
    ensures forall x :: Ties(MoreTokens(), results, x) == Ties(MoreTokens(), items, x)
  {
    results := Sort(MoreTokens(), items);
    MoreTokensIsOrder();
    SortSorts(MoreTokens(), items);
    SortPermutes(MoreTokens(), items);
    forall x
      ensures Ties(MoreTokens(), results, x) == Ties(MoreTokens(), items, x)
    {
      SortIsStable(MoreTokens(), items, x);
    }
    ResultsStayDistinct(items, results, order);
  }

  /** One result per deployment with an execution, the heaviest user of tokens first. */
  method GetDeploymentUsage(depNames: map<string, string>, execs: seq<ExecRow>, usage: seq<ExecUsageRow>,
                            files: seq<FileRow>, pages: seq<PageRow>)
    returns (results: seq<Result>)
    ensures depNames == map[] ==> results == []
    ensures depNames != map[] ==> IsReport(results, execs, usage, files, pages)
    ensures forall r | r in results :: r.name == NameOf(depNames, r.dep)
    ensures forall r | r in results :: r.name == if r.dep in depNames then depNames[r.dep] else "Unknown"
    ensures forall i, j | 0 <= i < j < |results| :: results[i].usage.tokens >= results[j].usage.tokens
  {
    hide IsStats;
    hide IsUsage;
    hide HasKey;
    hide GroupSum;
    hide ExecToDep;
    hide Distinct;
    hide SortedBy;
    if depNames == map[] {
      return [];
    }
    if execs == [] {
      EmptyReport(usage, files, pages);
      return [];
    }
    var execToDep, stats, statsOrder := BuildExecStats(execs);
    var depPages := PagesByDeployment(files, pages, execToDep);
    var used, usedOrder := AggregateUsage(usage, execToDep);
    var agg, order := AddUnused(used, usedOrder, statsOrder);
    forall d
      ensures d in order <==> d in stats
    {
      if d in used {
        UsageKeysAreDeps(execs, usage, d);
      }
    }
    var items := seq(|order|, i requires 0 <= i < |order| =>
      Result(order[i], NameOf(depNames, order[i]), agg[order[i]], stats[order[i]], PagesOf(depPages, order[i])));
    forall x | x in items
      ensures IsResult(x, execs, usage, files, pages) && x.name == NameOf(depNames, x.dep)
    {
      var i :| 0 <= i < |items| && items[i] == x;
      assert order[i] in order;
    }
    hide IsResult;
    results := Rank(items, order);
  }

  lemma EmptyReport(usage: seq<ExecUsageRow>, files: seq<FileRow>, pages: seq<PageRow>)
    ensures IsReport([], [], usage, files, pages)
  {
  }

  lemma ResultsStayDistinct(items: seq<Result>, sorted: seq<Result>, order: seq<string>)
    requires multiset(sorted) == multiset(items) && Distinct(order)
    requires |items| == |order| && forall i | 0 <= i < |items| :: items[i].dep == order[i]
    ensures Distinct(DepsOf(sorted)) && (forall d :: d in DepsOf(sorted) <==> d in order) &&
      forall x :: x in sorted <==> x in items
  {
    PermutationOfDistinct(items, sorted);
    forall i, j | 0 <= i < j < |sorted|
      ensures sorted[i].dep != sorted[j].dep
    {
      assert sorted[i] in items && sorted[j] in items && sorted[i] != sorted[j];
    }
    forall d
      ensures d in DepsOf(sorted) <==> d in order
    {
      if d in DepsOf(sorted) {
        var i :| 0 <= i < |sorted| && DepsOf(sorted)[i] == d;
        assert sorted[i] in items;
      }
      if d in order {
        var i :| 0 <= i < |order| && order[i] == d;
        assert items[i] in sorted;
        var j :| 0 <= j < |sorted| && sorted[j] == items[i];
        assert DepsOf(sorted)[j] == d;
      }
    }
  }

  // ---------------------------------------------------------------- conservation

  function IsNamed(): string -> bool { (d: string) => d != "" }
  function Any(): string -> bool { (d: string) => true }

  function ExecCount(r: Result): real { r.stats.total as real }
  function TokenCount(r: Result): real { r.usage.tokens as real }
  function CallCount(r: Result): real { r.usage.calls as real }
  function CostSum(r: Result): real { r.usage.cost }
  function PageCount(r: Result): real { r.pages as real }

  lemma {:induction false} ReportColumns(rs: seq<Result>, execs: seq<ExecRow>, usage: seq<ExecUsageRow>,
                                         files: seq<FileRow>, pages: seq<PageRow>)
    requires forall i | 0 <= i < |rs| :: IsResult(rs[i], execs, usage, files, pages)
    ensures
      var m := ExecToDep(execs);
      && Sum(rs, ExecCount) == GroupsWhere(DepsOf(rs), execs, DepOf, One, Any())
      && Sum(rs, TokenCount) == GroupsWhere(DepsOf(rs), usage, UsageDep(m), Tokens, IsNamed())
      && Sum(rs, CallCount) == GroupsWhere(DepsOf(rs), usage, UsageDep(m), Calls, IsNamed())
      && Sum(rs, CostSum) == GroupsWhere(DepsOf(rs), usage, UsageDep(m), Costs, IsNamed())
      && Sum(rs, PageCount) == GroupsWhere(DepsOf(rs), pages, PageDep(FileToExec(files), m), Pages, IsNamed())
  {
    if rs != [] {
      ReportColumns(rs[..|rs| - 1], execs, usage, files, pages);
      assert DepsOf(rs)[..|rs| - 1] == DepsOf(rs[..|rs| - 1]);
    }
  }

  lemma {:induction false} OneEach(execs: seq<ExecRow>)
    ensures SumWhere(execs, DepOf, One, Any()) == |execs| as real
  {
    if execs != [] {
      OneEach(execs[..|execs| - 1]);
    }
  }

  /** The report accounts for every execution, and for every token, call, dollar and page of a row
      that leads to a deployment, once; and in every line it is consistent with itself. */
  lemma ReportConserves(rs: seq<Result>, execs: seq<ExecRow>, usage: seq<ExecUsageRow>, files: seq<FileRow>,
                        pages: seq<PageRow>)
    requires IsReport(rs, execs, usage, files, pages)
    ensures Sum(rs, ExecCount) == |execs| as real
    ensures
      var dep := UsageDep(ExecToDep(execs));
      && Sum(rs, TokenCount) == SumWhere(usage, dep, Tokens, IsNamed())
      && Sum(rs, CallCount) == SumWhere(usage, dep, Calls, IsNamed())
      && Sum(rs, CostSum) == SumWhere(usage, dep, Costs, IsNamed())
    ensures Sum(rs, PageCount) == SumWhere(pages, PageDep(FileToExec(files), ExecToDep(execs)), Pages, IsNamed())
    ensures forall i | 0 <= i < |rs| ::
      && rs[i].stats.completed + rs[i].stats.failed <= rs[i].stats.total
      && (rs[i].stats.first.Some? ==> rs[i].stats.last.Some? && rs[i].stats.first.value <= rs[i].stats.last.value)
  {
    var m := ExecToDep(execs);
    ReportColumns(rs, execs, usage, files, pages);
    forall i | 0 <= i < |execs|
      ensures DepOf(execs[i]) in DepsOf(rs)
    {
      assert HasKey(execs, DepOf, DepOf(execs[i]));
    }
    GroupsAddUp(DepsOf(rs), execs, DepOf, One, Any());
    OneEach(execs);
    forall i | 0 <= i < |usage| && UsageDep(m)(usage[i]) != ""
      ensures UsageDep(m)(usage[i]) in DepsOf(rs)
    {
      MappedToExec(execs, usage[i].exec);
    }
    GroupsAddUp(DepsOf(rs), usage, UsageDep(m), Tokens, IsNamed());
    GroupsAddUp(DepsOf(rs), usage, UsageDep(m), Calls, IsNamed());
    GroupsAddUp(DepsOf(rs), usage, UsageDep(m), Costs, IsNamed());
    forall i | 0 <= i < |pages| && PageDep(FileToExec(files), m)(pages[i]) != ""
      ensures PageDep(FileToExec(files), m)(pages[i]) in DepsOf(rs)
    {
      MappedToExec(execs, Target(FileToExec(files), pages[i].run));
    }
    GroupsAddUp(DepsOf(rs), pages, PageDep(FileToExec(files), m), Pages, IsNamed());
    forall i | 0 <= i < |rs|
      ensures rs[i].stats.completed + rs[i].stats.failed <= rs[i].stats.total
      ensures rs[i].stats.first.Some? ==> rs[i].stats.last.Some? && rs[i].stats.first.value <= rs[i].stats.last.value
    {
      FirstBeforeLast(rs[i].stats, execs, rs[i].dep);
    }
  }

  // ---------------------------------------------------------------- the report, row by row

  /** Each execution has one row. */
  predicate IdsUnique(execs: seq<ExecRow>) {
    forall i, j | 0 <= i < j < |execs| :: execs[i].id != execs[j].id
  }

  /** The row of execution `id` belongs to deployment `d`. */
  ghost predicate Runs(execs: seq<ExecRow>, id: string, d: string) {
    exists i | 0 <= i < |execs| :: execs[i].id == id && execs[i].dep == d
  }

  lemma {:induction false} MappedIffRuns(execs: seq<ExecRow>, id: string, d: string)
    requires IdsUnique(execs)
    ensures id in ExecToDep(execs) && ExecToDep(execs)[id] == d <==> Runs(execs, id, d)
  {
    if execs != [] {
      var n := |execs| - 1;
      var rest := execs[..n];
      MappedIffRuns(rest, id, d);
      if Runs(rest, id, d) {
        var i :| 0 <= i < n && rest[i].id == id && rest[i].dep == d;
        assert execs[i].id == id && execs[i].dep == d;
      }
      if Runs(execs, id, d) && execs[n].id != id {
        var i :| 0 <= i < |execs| && execs[i].id == id && execs[i].dep == d;
        assert rest[i].id == id && rest[i].dep == d;
      }
      if execs[n].id == id && Runs(execs, id, d) {
        var i :| 0 <= i < |execs| && execs[i].id == id && execs[i].dep == d;
        assert i == n;
      }
    }
  }

  /** Each file execution has one row. */
  predicate FilesUnique(files: seq<FileRow>) {
    forall i, j | 0 <= i < j < |files| :: files[i].id != files[j].id
  }

  ghost predicate RunsFile(files: seq<FileRow>, id: string, exec: string) {
    exists i | 0 <= i < |files| :: files[i].id == id && files[i].exec == exec
  }

  lemma {:induction false} MappedIffRunsFile(files: seq<FileRow>, id: string, exec: string)
    requires FilesUnique(files)
    ensures id in FileToExec(files) && FileToExec(files)[id] == exec <==> RunsFile(files, id, exec)
  {
    if files != [] {
      var n := |files| - 1;
      var rest := files[..n];
      MappedIffRunsFile(rest, id, exec);
      if RunsFile(rest, id, exec) {
        var i :| 0 <= i < n && rest[i].id == id && rest[i].exec == exec;
        assert files[i].id == id && files[i].exec == exec;
      }
      if RunsFile(files, id, exec) {
        var i :| 0 <= i < |files| && files[i].id == id && files[i].exec == exec;
        assert i < n ==> rest[i].id == id && rest[i].exec == exec;
      }
    }
  }

  /** The page row's file belongs to an execution of the deployment. */
  ghost predicate PagesRun(execs: seq<ExecRow>, files: seq<FileRow>, run: string, d: string) {
    exists exec :: exec != "" && RunsFile(files, run, exec) && Runs(execs, exec, d)
  }

  lemma PageDepIff(execs: seq<ExecRow>, files: seq<FileRow>, r: PageRow, d: string)
    requires IdsUnique(execs) && FilesUnique(files) && d != ""
    ensures PageDep(FileToExec(files), ExecToDep(execs))(r) == d <==> PagesRun(execs, files, r.run, d)
  {
    var exec := Target(FileToExec(files), r.run);
    MappedIffRunsFile(files, r.run, exec);
    MappedIffRuns(execs, exec, d);
    forall e | e != "" && RunsFile(files, r.run, e)
      ensures e == exec
    {
      MappedIffRunsFile(files, r.run, e);
    }
  }

  /** What a result says about its deployment, counted directly over the rows. */
  lemma StatsAreCounts(s: Stats, execs: seq<ExecRow>, d: string)
    requires IsStats(s, execs, d)
    ensures s.total as real == SumIf(execs, (e: ExecRow) => e.dep == d, (e: ExecRow) => 1.0)
    ensures s.completed as real ==
            SumIf(execs, (e: ExecRow) => e.dep == d && e.status == Completed, (e: ExecRow) => 1.0)
    ensures s.failed as real == SumIf(execs, (e: ExecRow) => e.dep == d && e.status == Error, (e: ExecRow) => 1.0)
    ensures forall e | e in execs && e.dep == d && e.at.Some? ::
      s.first.Some? && s.last.Some? && s.first.value <= e.at.value <= s.last.value
    ensures s.first.Some? ==> exists e :: e in execs && e.dep == d && e.at == s.first
    ensures s.last.Some? ==> exists e :: e in execs && e.dep == d && e.at == s.last
  {
    GroupIsSumIf(execs, DepOf, One, d, (e: ExecRow) => e.dep == d, (e: ExecRow) => 1.0);
    StatusCounts(execs, d);
    forall e | e in execs && e.dep == d && e.at.Some?
      ensures s.first.Some? && s.last.Some? && s.first.value <= e.at.value <= s.last.value
    {
      var i :| 0 <= i < |execs| && execs[i] == e;
      assert Stamped(execs, d, i);
    }
    if s.first.Some? {
      var i :| 0 <= i < |execs| && Stamped(execs, d, i) && execs[i].at.value == s.first.value;
      assert execs[i] in execs && execs[i].at == s.first;
    }
    if s.last.Some? {
      var i :| 0 <= i < |execs| && Stamped(execs, d, i) && execs[i].at.value == s.last.value;
      assert execs[i] in execs && execs[i].at == s.last;
    }
  }

  lemma {:induction false} StatusCounts(execs: seq<ExecRow>, d: string)
    ensures GroupSum(execs, DepOf, OneIfCompleted, d) ==
            SumIf(execs, (e: ExecRow) => e.dep == d && e.status == Completed, (e: ExecRow) => 1.0)
    ensures GroupSum(execs, DepOf, OneIfFailed, d) ==
            SumIf(execs, (e: ExecRow) => e.dep == d && e.status == Error, (e: ExecRow) => 1.0)
  {
    if execs != [] {
      StatusCounts(execs[..|execs| - 1], d);
    }
  }

  /** Tokens, calls, cost and pages of a result are those of the rows of its executions. */
  lemma UsageIsDirect(r: Result, execs: seq<ExecRow>, usage: seq<ExecUsageRow>, files: seq<FileRow>,
                      pages: seq<PageRow>)
    requires IsResult(r, execs, usage, files, pages) && r.dep != "" && IdsUnique(execs) && FilesUnique(files)
    ensures
      var mine := (u: ExecUsageRow) => Runs(execs, u.exec, r.dep);
      && r.usage.tokens as real ==
         SumIf(usage, mine, (u: ExecUsageRow) => match u.tokens case Some(n) => n as real case None => 0.0)
      && r.usage.calls as real ==
         SumIf(usage, mine, (u: ExecUsageRow) => match u.calls case Some(n) => n as real case None => 0.0)
      && r.usage.cost == SumIf(usage, mine, (u: ExecUsageRow) => match u.cost case Some(x) => x case None => 0.0)
    ensures r.pages as real ==
            SumIf(pages, (p: PageRow) => PagesRun(execs, files, p.run, r.dep),
                  (p: PageRow) => match p.pages case Some(n) => n as real case None => 0.0)
  {
    var d := r.dep;
    var mine := (u: ExecUsageRow) => Runs(execs, u.exec, d);
    var dep := UsageDep(ExecToDep(execs));
    forall i | 0 <= i < |usage|
      ensures dep(usage[i]) == d <==> mine(usage[i])
    {
      MappedIffRuns(execs, usage[i].exec, d);
    }
    var here := (p: PageRow) => PagesRun(execs, files, p.run, d);
    var pageDep := PageDep(FileToExec(files), ExecToDep(execs));
    forall i | 0 <= i < |pages|
      ensures pageDep(pages[i]) == d <==> here(pages[i])
    {
      PageDepIff(execs, files, pages[i], d);
    }
    hide Runs;
    hide PagesRun;
    GroupIsSumIf(usage, dep, Tokens, d, mine,
                 (u: ExecUsageRow) => match u.tokens case Some(n) => n as real case None => 0.0);
    GroupIsSumIf(usage, dep, Calls, d, mine,
                 (u: ExecUsageRow) => match u.calls case Some(n) => n as real case None => 0.0);
    GroupIsSumIf(usage, dep, Costs, d, mine, (u: ExecUsageRow) => match u.cost case Some(x) => x case None => 0.0);
    GroupIsSumIf(pages, pageDep, Pages, d, here,
                 (p: PageRow) => match p.pages case Some(n) => n as real case None => 0.0);
  }
}
