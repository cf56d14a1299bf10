/** The rate limiter as the object the application calls. Every Redis command it issues is a
    protocol step, so its history is a run and the theorems about runs are theorems about it. */
module RateLimiter {
  import opened RedisZset
  import opened RateLimitProtocol

  /** The entries a cleanup with this cutoff leaves. */
  function Fresh(z: Zset, cutoff: Time): map<ExecId, Time> {
    map e | e in z.scores && !(0 <= z.scores[e] <= cutoff) :: z.scores[e]
  }

  lemma FreshKeys(z: Zset, cutoff: Time)
    ensures Fresh(z, cutoff).Keys == set x | x in z.scores && (z.scores[x] < 0 || z.scores[x] > cutoff)
  {
  }

  /** What the two checks decide from the fresh entries of the org and of the system. */
  function Verdict(mine: map<ExecId, Time>, all: map<ExecId, Time>, orgLimit: int, globalLimit: int): Outcome {
    Comparison(|mine.Keys|, |all.Keys|, orgLimit, globalLimit)
  }

  function Comparison(mine: nat, all: nat, orgLimit: int, globalLimit: int): Outcome {
    if mine >= orgLimit then OrgLimited(mine, orgLimit) else if all >= globalLimit then GlobalLimited(all) else Admitted
  }

  function Tracked(scores: map<ExecId, Time>, e: ExecId, ts: Time, outcome: Outcome): map<ExecId, Time> {
    if outcome.Admitted? then scores[e := ts] else scores
  }

  /** What a call that held the lock of `org` leaves behind: the lock is free, the entries older
      than `cutoff` are gone, the execution is tracked under `ts` in both ZSETs or in neither,
      and no other organization is touched. */
  ghost predicate Decided(before: State, after: State, e: ExecId, org: OrgId, ts: Time, cutoff: Time,
                          orgLimit: int, globalLimit: int, outcome: Outcome) {
    var mine, all := Fresh(OrgZset(before, org), cutoff), Fresh(before.global, cutoff);
    && after.locks == before.locks - {org}
    && outcome == Verdict(mine, all, orgLimit, globalLimit)
    && OrgZset(after, org).scores == Tracked(mine, e, ts, outcome)
    && after.global.scores == Tracked(all, e, ts, outcome)
    && (forall o | o != org :: OrgZset(after, o) == OrgZset(before, o))
  }

  /** Both ZSETs have lost what call `e` finds stale, and nothing else has changed. */
  ghost predicate Cleaned(before: State, after: State, e: ExecId)
    requires e in before.calls
  {
    var c := before.calls[e];
    && after.now == before.now && after.locks == before.locks
    && OrgZset(after, c.org).scores == Fresh(OrgZset(before, c.org), c.cutoff)
    && after.global.scores == Fresh(before.global, c.cutoff)
    && (forall o | o != c.org :: OrgZset(after, o) == OrgZset(before, o))
  }

  /** The execution is tracked in both ZSETs if it was admitted, and nothing else has changed in them. */
  ghost predicate IsSettled(before: State, after: State, e: ExecId, c: Call, verdict: Outcome) {
    && OrgZset(after, c.org).scores == Tracked(OrgZset(before, c.org).scores, e, c.ts, verdict)
    && after.global.scores == Tracked(before.global.scores, e, c.ts, verdict)
    && (forall o | o != c.org :: OrgZset(after, o) == OrgZset(before, o))
  }

  lemma StaysSettled(before: State, added: State, after: State, e: ExecId, c: Call, verdict: Outcome)
    ensures IsSettled(before, added, e, c, verdict) && after.orgs == added.orgs && after.global == added.global ==>
            IsSettled(before, after, e, c, verdict)
  {
  }

  /** Taking the lock decides nothing yet. */
  lemma DecidedSinceLock(before: State, locked: State, after: State, e: ExecId, org: OrgId, ts: Time, cutoff: Time,
                         orgLimit: int, globalLimit: int, outcome: Outcome)
    requires Decided(locked, after, e, org, ts, cutoff, orgLimit, globalLimit, outcome)
    requires locked.orgs == before.orgs && locked.global == before.global &&
      locked.locks - {org} == before.locks - {org}
    ensures Decided(before, after, e, org, ts, cutoff, orgLimit, globalLimit, outcome)
    ensures outcome == Verdict(Fresh(OrgZset(before, org), cutoff), Fresh(before.global, cutoff), orgLimit, globalLimit)
    ensures !outcome.FailedOpen?
  {
  }

  // ---------------------------------------------------------------- calls amid other calls

  /** What the rest of the system does before each command of a call, and the commands that raise. */
  datatype Weather = Weather(others: nat -> seq<Action>, raises: nat -> bool)

  ghost predicate Quiet(w: Weather) { forall i :: w.others(i) == [] && !w.raises(i) }

  ghost predicate Raises(w: Weather) { exists i :: w.raises(i) }

  /** The call whose own step `a` is, if any. */
  function Movers(a: Action): set<ExecId> {
    match a
    case Tick(_) => {}
    case ReleaseSlot(_, _) => {}
    case UsageCleanOrg(_, _) => {}
    case UsageCleanGlobal(_) => {}
    case ExpireOrg(_) => {}
    case ExpireGlobal => {}
    case _ => {a.e}
  }

  predicate SameCall(s: State, t: State, e: ExecId) {
    (e in t.calls <==> e in s.calls) && (e in s.calls ==> t.calls[e] == s.calls[e])
  }

  lemma OthersKeepCall(cfg: Config, s: State, a: Action, e: ExecId)
    requires Enabled(cfg, s, a) && e !in Movers(a)
    ensures SameCall(s, Step(cfg, s, a), e)
  {
  }

  /** The commands a call may issue under the lock, by its phase. */
  predicate IsNext(p: Phase, a: Action, e: ExecId) {
    match a
    case CleanOrg(f) => f == e && p.Holding?
    case CleanGlobal(f) => f == e && p.OrgCleaned?
    case CountOrg(f) => f == e && p.GlobalCleaned?
    case CheckOrg(f, _) => f == e && p.Counted?
    case CheckGlobal(f) => f == e && p.OrgPassed?
    case Add(f) => f == e && p.Cleared?
    case _ => false
  }

  /** What reading and comparing change, and what raising changes: the phase of the call. */
  function PhaseAfter(cfg: Config, s: State, a: Action, c: Call): Phase {
    match a
    case CountOrg(_) => Counted(ZCard(OrgZset(s, c.org)))
    case CheckOrg(_, limit) =>
      if !c.phase.Counted? then c.phase
      else if c.phase.count >= limit then Leaving(OrgLimited(c.phase.count, limit)) else OrgPassed(limit)
    case CheckGlobal(_) =>
      if !c.phase.OrgPassed? then c.phase
      else if ZCard(s.global) >= cfg.globalLimit then Leaving(GlobalLimited(ZCard(s.global)))
      else Cleared(c.phase.limit)
    case _ => Leaving(FailedOpen)
  }

  lemma OnlyThePhase(cfg: Config, s: State, a: Action, e: ExecId)
    requires Enabled(cfg, s, a) && e in s.calls
    requires a == Fail(e) || a == CountOrg(e) || (a.CheckOrg? && a.e == e) || a == CheckGlobal(e)
    ensures
      var t := Step(cfg, s, a);
      && t.now == s.now && t.locks == s.locks && t.orgs == s.orgs && t.global == s.global
      && e in t.calls && t.calls[e] == s.calls[e].(phase := PhaseAfter(cfg, s, a, s.calls[e]))
  {
  }

  lemma CleaningOrg(cfg: Config, s: State, e: ExecId)
    requires At(s, e, Holding)
    ensures
      var c, t := s.calls[e], Step(cfg, s, CleanOrg(e));
      && t.now == s.now && t.locks == s.locks && t.global == s.global
      && OrgZset(t, c.org).scores == Fresh(OrgZset(s, c.org), c.cutoff)
      && (forall o | o != c.org :: OrgZset(t, o) == OrgZset(s, o))
      && e in t.calls && t.calls[e] == c.(phase := OrgCleaned)
  {
  }

  lemma CleaningGlobal(cfg: Config, s: State, e: ExecId)
    requires At(s, e, OrgCleaned)
    ensures
      var c, t := s.calls[e], Step(cfg, s, CleanGlobal(e));
      && t.now == s.now && t.locks == s.locks && t.orgs == s.orgs
      && t.global.scores == Fresh(s.global, c.cutoff)
      && e in t.calls && t.calls[e] == c.(phase := GlobalCleaned)
  {
  }

  // What the states visited from `lo` on show at some moment.

  ghost predicate SeenFree(tr: seq<State>, lo: nat, org: OrgId) {
    exists i | lo <= i < |tr| :: LockFree(tr[i], org)
  }

  ghost predicate SeenBusy(tr: seq<State>, lo: nat, org: OrgId) {
    exists i | lo <= i < |tr| :: !LockFree(tr[i], org)
  }

  ghost predicate SeenOrg(tr: seq<State>, lo: nat, org: OrgId, n: nat) {
    exists i | lo <= i < |tr| :: ZCard(OrgZset(tr[i], org)) == n
  }

  ghost predicate SeenGlobal(tr: seq<State>, lo: nat, n: nat) {
    exists i | lo <= i < |tr| :: ZCard(tr[i].global) == n
  }

  predicate IsTracked(s: State, e: ExecId, org: OrgId) {
    e in OrgZset(s, org).scores && e in s.global.scores
  }

  ghost predicate SeenTracked(tr: seq<State>, lo: nat, e: ExecId, org: OrgId) {
    exists i | lo <= i < |tr| :: IsTracked(tr[i], e, org)
  }

  ghost predicate SeenOrgBelow(tr: seq<State>, lo: nat, org: OrgId, limit: int) {
    exists n: nat :: n < limit && SeenOrg(tr, lo, org, n)
  }

  ghost predicate SeenGlobalBelow(tr: seq<State>, lo: nat, limit: int) {
    exists n: nat :: n < limit && SeenGlobal(tr, lo, n)
  }

  /** What the two checks decide is borne out by counts that were true at some moment. */
  ghost predicate Checked(cfg: Config, tr: seq<State>, lo: nat, org: OrgId, orgLimit: int, w: Weather,
                          verdict: Outcome) {
    match verdict
    case Admitted => SeenOrgBelow(tr, lo, org, orgLimit) && SeenGlobalBelow(tr, lo, cfg.globalLimit)
    case OrgLimited(n, limit) => limit == orgLimit <= n && SeenOrg(tr, lo, org, n)
    case GlobalLimited(n) => cfg.globalLimit <= n && SeenGlobal(tr, lo, n) && SeenOrgBelow(tr, lo, org, orgLimit)
    case FailedOpen => Raises(w)
  }

  /** The same of a comparison that starts from a count of `n`. */
  ghost predicate Compared(cfg: Config, tr: seq<State>, lo: nat, n: nat, orgLimit: int, w: Weather, verdict: Outcome) {
    match verdict
    case Admitted => n < orgLimit && SeenGlobalBelow(tr, lo, cfg.globalLimit)
    case OrgLimited(m, limit) => limit == orgLimit <= n == m
    case GlobalLimited(m) => n < orgLimit && cfg.globalLimit <= m && SeenGlobal(tr, lo, m)
    case FailedOpen => Raises(w)
  }

  /** The whole call: only a lock that was busy or a command that raised makes it fail open, an
      admission was tracked in both ZSETs, and every count it reports was true while it ran. */
  ghost predicate Justified(cfg: Config, tr: seq<State>, lo: nat, e: ExecId, org: OrgId, orgLimit: int, w: Weather,
                            outcome: Outcome) {
    && (outcome.FailedOpen? ==> Raises(w) || SeenBusy(tr, lo, org))
    && (outcome.Admitted? ==> SeenTracked(tr, lo, e, org))
    && (!outcome.FailedOpen? ==> SeenFree(tr, lo, org) && Checked(cfg, tr, lo, org, orgLimit, w, outcome))
  }

  /** What has been seen stays seen. */
  lemma SeenLater(tr: seq<State>, more: seq<State>, lo: nat, from: nat, org: OrgId)
    requires tr <= more && from <= lo
    ensures SeenFree(tr, lo, org) ==> SeenFree(more, from, org)
    ensures SeenBusy(tr, lo, org) ==> SeenBusy(more, from, org)
    ensures forall n :: SeenOrg(tr, lo, org, n) ==> SeenOrg(more, from, org, n)
    ensures forall n :: SeenGlobal(tr, lo, n) ==> SeenGlobal(more, from, n)
    ensures forall e :: SeenTracked(tr, lo, e, org) ==> SeenTracked(more, from, e, org)
  {
    assert forall i | 0 <= i < |tr| :: more[i] == tr[i];
  }

  lemma CheckedLater(cfg: Config, tr: seq<State>, more: seq<State>, lo: nat, from: nat, org: OrgId, orgLimit: int,
                     w: Weather, verdict: Outcome)
    requires tr <= more && from <= lo && Checked(cfg, tr, lo, org, orgLimit, w, verdict)
    ensures Checked(cfg, more, from, org, orgLimit, w, verdict)
  {
    SeenLater(tr, more, lo, from, org);
  }

  class APIDeploymentRateLimiter {
    const cfg: Config
    var s: State
    ghost var visited: seq<State>
    ghost var acts: seq<Action>

    ghost predicate Valid()
      reads this
    {
      IsRun(cfg, visited, acts) && visited[|visited| - 1] == s
    }

    constructor (cfg: Config, now: Time)
      ensures Valid() && this.cfg == cfg && s == State(now, map[], ABSENT, map[], map[])
    {
      this.cfg := cfg;
      s := State(now, map[], ABSENT, map[], map[]);
      visited, acts := [State(now, map[], ABSENT, map[], map[])], [];
    }

    method Do(a: Action)
      requires Valid() && Enabled(cfg, s, a)
      modifies this
      ensures Valid() && s == Step(cfg, old(s), a)
      ensures visited == old(visited) + [s] && acts == old(acts) + [a] && |old(visited)| > 0
    {
      var was, run := visited, acts;
      s := Step(cfg, s, a);
      visited, acts := visited + [s], acts + [a];
      forall i | 0 <= i < |acts|
        ensures Enabled(cfg, visited[i], acts[i]) && visited[i + 1] == Step(cfg, visited[i], acts[i])
      {
        if i < |run| {
          assert visited[i] == was[i] && visited[i + 1] == was[i + 1] && acts[i] == run[i];
        }
      }
    }

    /** What the rest of the system does while call `e` is between two commands. */
    method Others(e: ExecId, todo: seq<Action>)
      requires Valid()
      modifies this
      ensures Valid() && old(visited) <= visited
      ensures SameCall(old(s), s, e) && |visited| > 0 && visited[|visited| - 1] == s
      ensures todo == [] ==> s == old(s)
    {
      assert |visited| > 0;
      hide IsRun;
      hide Step;
      for i := 0 to |todo|
        invariant Valid() && old(visited) <= visited
        invariant SameCall(old(s), s, e)
        invariant i == 0 ==> s == old(s)
      {
        if Enabled(cfg, s, todo[i]) && e !in Movers(todo[i]) {
          OthersKeepCall(cfg, s, todo[i], e);
          Do(todo[i]);
        }
      }
    }

    /** A command of call `e`, after what others do; if it raises, the call is to leave instead. */
    method Command(e: ExecId, a: Action, todo: seq<Action>, raises: bool) returns (ghost was: State)
      requires Valid() && e in s.calls && IsNext(s.calls[e].phase, a, e)
      modifies this
      ensures Valid() && old(visited) <= visited && |old(visited)| < |visited|
      ensures visited[|visited| - 2] == was && visited[|visited| - 1] == s && SameCall(old(s), was, e)
      ensures Enabled(cfg, was, if raises then Fail(e) else a) && s == Step(cfg, was, if raises then Fail(e) else a)
      ensures todo == [] ==> was == old(s)
    {
      Others(e, todo);
      was := s;
      hide IsRun;
      if raises {
        Do(Fail(e));
      } else {
        Do(a);
      }
    }

    /** Reads the clock twice, then waits for the lock and takes it or gives up on it. */
    method TakeLock(e: ExecId, org: OrgId, w: Weather) returns (acquired: bool)
      requires Valid() && e !in s.calls
      modifies this
      ensures Valid() && old(visited) <= visited
      ensures e in s.calls && s.calls[e].org == org
      ensures s.calls[e].phase == if acquired then Holding else Finished(FailedOpen)
      ensures acquired ==> SeenFree(visited, |old(visited)|, org) && org in s.locks && s.locks[org].holder == e
      ensures !acquired ==> Raises(w) || SeenBusy(visited, |old(visited)|, org)
      ensures Quiet(w) ==>
        && acquired == LockFree(old(s), org)
        && s.now == old(s.now) && s.orgs == old(s.orgs) && s.global == old(s.global)
        && s.calls[e].ts == old(s.now) && s.calls[e].cutoff == old(s.now) - cfg.ttl
        && (acquired ==> s.locks - {org} == old(s.locks) - {org})
        && (!acquired ==> s.locks == old(s.locks))
    {
      hide IsRun;
      Do(Begin(e, org));
      Others(e, w.others(1));
      Do(ReadCutoff(e));
      Others(e, w.others(2));
      ghost var before := visited;
      acquired := GrabOrGiveUp(e, w.raises(2));
      SeenLater(visited, visited, |before| - 1, |old(visited)|, org);
      assert w.raises(2) ==> Raises(w);
    }

    /** The last look at the lock. */
    method GrabOrGiveUp(e: ExecId, raises: bool) returns (acquired: bool)
      requires Valid() && |visited| > 0 && e in s.calls && s.calls[e].phase.Waiting?
      modifies this
      ensures Valid() && visited == old(visited) + [s] && e in s.calls
      ensures acquired == (LockFree(old(s), old(s.calls[e].org)) && !raises)
      ensures s.now == old(s.now) && s.orgs == old(s.orgs) && s.global == old(s.global)
      ensures
        var c, org := old(s.calls[e]), old(s.calls[e].org);
        && s.calls[e].org == org && s.calls[e].ts == c.ts && s.calls[e].cutoff == c.cutoff
        && s.calls[e].phase == (if acquired then Holding else Finished(FailedOpen))
        && (acquired ==> org in s.locks && s.locks[org].holder == e && s.locks - {org} == old(s.locks) - {org})
        && (!acquired ==> s.locks == old(s.locks))
      ensures
        var org := old(s.calls[e].org);
        if acquired then SeenFree(visited, |old(visited)| - 1, org)
        else raises || SeenBusy(visited, |old(visited)| - 1, org)
    {
      assert visited[|visited| - 1] == s;
      hide IsRun;
      acquired := LockFree(s, s.calls[e].org) && !raises;
      ghost var n := |visited|;
      if acquired {
        Do(AcquireLock(e));
      } else {
        Do(GiveUp(e));
      }
      assert visited[n - 1] == old(s);
    }

    /** Drops the stale entries of both ZSETs. */
    method Clean(e: ExecId, w: Weather) returns (ok: bool)
      requires Valid() && e in s.calls && s.calls[e].phase == Holding
      modifies this
      ensures Valid() && old(visited) <= visited
      ensures e in s.calls && s.calls[e] == old(s.calls[e]).(phase := if ok then GlobalCleaned else Leaving(FailedOpen))
      ensures !ok ==> Raises(w)
      ensures Quiet(w) ==> ok && Cleaned(old(s), s, e)
    {
      hide IsRun;
      hide Step;
      hide Enabled;
      ghost var was := Command(e, CleanOrg(e), w.others(3), w.raises(3));
      CleaningOrg(cfg, was, e);
      OnlyThePhase(cfg, was, Fail(e), e);
      if w.raises(3) {
        return false;
      }
      was := Command(e, CleanGlobal(e), w.others(4), w.raises(4));
      CleaningGlobal(cfg, was, e);
      OnlyThePhase(cfg, was, Fail(e), e);
      ok := !w.raises(4);
    }

    /** Drops the stale entries of both ZSETs and counts the organization's. */
    method CleanAndCount(e: ExecId, w: Weather) returns (ok: bool)
      requires Valid() && e in s.calls && s.calls[e].phase == Holding
      modifies this
      ensures Valid() && old(visited) <= visited
      ensures e in s.calls && s.calls[e] == old(s.calls[e]).(phase := s.calls[e].phase)
      ensures ok ==>
        s.calls[e].phase.Counted? && SeenOrg(visited, |old(visited)|, s.calls[e].org, s.calls[e].phase.count)
      ensures !ok ==> s.calls[e].phase == Leaving(FailedOpen) && Raises(w)
      ensures Quiet(w) ==>
        && ok && Cleaned(old(s), s, e)
        && s.calls[e].phase == Counted(ZCard(OrgZset(s, s.calls[e].org)))
    {
      hide IsRun;
      hide Step;
      hide Enabled;
      ok := Clean(e, w);
      if ok {
        ghost var was := Command(e, CountOrg(e), w.others(5), w.raises(5));
        OnlyThePhase(cfg, was, if w.raises(5) then Fail(e) else CountOrg(e), e);
        assert visited[|visited| - 1] == s;
        ok := !w.raises(5);
      }
    }

    /** Compares the number of entries of the system with its limit. */
    method CompareGlobal(e: ExecId, w: Weather) returns (verdict: Outcome)
      requires Valid() && e in s.calls && s.calls[e].phase.OrgPassed?
      modifies this
      ensures Valid() && old(visited) <= visited
      ensures e in s.calls
      ensures
        var c := old(s.calls[e]);
        s.calls[e] == c.(phase := if verdict.Admitted? then Cleared(c.phase.limit) else Leaving(verdict))
      ensures
        match verdict
        case Admitted => SeenGlobalBelow(visited, |old(visited)|, cfg.globalLimit)
        case GlobalLimited(n) => cfg.globalLimit <= n && SeenGlobal(visited, |old(visited)|, n)
        case OrgLimited(_, _) => false
        case FailedOpen => Raises(w)
      ensures Quiet(w) ==>
        && s == old(s).(calls := s.calls)
        && var n := ZCard(old(s.global));
           verdict == if n >= cfg.globalLimit then GlobalLimited(n) else Admitted
    {
      hide IsRun;
      hide Step;
      hide Enabled;
      ghost var was := Command(e, CheckGlobal(e), w.others(7), w.raises(7));
      OnlyThePhase(cfg, was, if w.raises(7) then Fail(e) else CheckGlobal(e), e);
      if w.raises(7) {
        return FailedOpen;
      }
      assert visited[|visited| - 1] == s;
      assert SeenGlobal(visited, |old(visited)|, ZCard(was.global));
      verdict := if s.calls[e].phase.Cleared? then Admitted else s.calls[e].phase.outcome;
    }

    /** Compares the two counts with the limits, the organization's first. */
    method Compare(e: ExecId, orgLimit: int, w: Weather) returns (verdict: Outcome)
      requires Valid() && e in s.calls && s.calls[e].phase.Counted?
      modifies this
      ensures Valid() && old(visited) <= visited
      ensures e in s.calls
      ensures s.calls[e] == old(s.calls[e]).(phase := if verdict.Admitted? then Cleared(orgLimit) else Leaving(verdict))
      ensures Compared(cfg, visited, |old(visited)|, old(s.calls[e].phase.count), orgLimit, w, verdict)
      ensures Quiet(w) ==>
        && s == old(s).(calls := s.calls)
        && verdict == Comparison(old(s.calls[e].phase.count), ZCard(old(s.global)), orgLimit, cfg.globalLimit)
    {
      hide IsRun;
      hide Step;
      hide Enabled;
      var n := s.calls[e].phase.count;
      ghost var was := Command(e, CheckOrg(e, orgLimit), w.others(6), w.raises(6));
      OnlyThePhase(cfg, was, if w.raises(6) then Fail(e) else CheckOrg(e, orgLimit), e);
      if w.raises(6) {
        return FailedOpen;
      }
      if s.calls[e].phase.Leaving? {
        return OrgLimited(n, orgLimit);
      }
      ghost var passed := visited;
      verdict := CompareGlobal(e, w);
      SeenLater(visited, visited, |passed|, |old(visited)|, s.calls[e].org);
    }

    /** Drops the stale entries of both ZSETs and compares their sizes with the limits. */
    method CheckLimits(e: ExecId, orgLimit: int, w: Weather) returns (verdict: Outcome)
      requires Valid() && e in s.calls && s.calls[e].phase == Holding
      modifies this
      ensures Valid() && old(visited) <= visited
      ensures e in s.calls
      ensures s.calls[e] == old(s.calls[e]).(phase := if verdict.Admitted? then Cleared(orgLimit) else Leaving(verdict))
      ensures Checked(cfg, visited, |old(visited)|, s.calls[e].org, orgLimit, w, verdict)
      ensures Quiet(w) ==>
        var c := old(s.calls[e]);
        var mine, all := Fresh(OrgZset(old(s), c.org), c.cutoff), Fresh(old(s.global), c.cutoff);
        verdict == Verdict(mine, all, orgLimit, cfg.globalLimit) && Cleaned(old(s), s, e)
    {
      hide IsRun;
      hide Raises;
      hide SeenOrg;
      hide SeenGlobal;
      ghost var org := s.calls[e].org;
      var ok := CleanAndCount(e, w);
      if !ok {
        return FailedOpen;
      }
      ghost var counted := visited;
      verdict := Compare(e, orgLimit, w);
      SeenLater(counted, visited, |old(visited)|, |old(visited)|, org);
      SeenLater(visited, visited, |counted|, |old(visited)|, org);
    }

    /** Adds the execution if it was admitted, then releases the lock either way. */
    method Settle(e: ExecId, verdict: Outcome, w: Weather) returns (outcome: Outcome)
      requires Valid() && e in s.calls
      requires if verdict.Admitted? then s.calls[e].phase.Cleared? else s.calls[e].phase == Leaving(verdict)
      modifies this
      ensures Valid() && old(visited) <= visited
      ensures e in s.calls && s.calls[e].phase == Finished(outcome)
      ensures outcome == verdict || (verdict.Admitted? && outcome.FailedOpen? && Raises(w))
      ensures outcome.Admitted? ==> SeenTracked(visited, |old(visited)|, e, old(s.calls[e].org))
      ensures Quiet(w) && old(s.calls[e].org in s.locks && s.locks[s.calls[e].org].holder == e) ==>
        var c := old(s.calls[e]);
        && outcome == verdict && s.locks == old(s.locks) - {c.org}
        && IsSettled(old(s), s, e, c, verdict)
    {
      hide IsRun;
      hide Raises;
      hide SeenTracked;
      hide IsSettled;
      ghost var was, lo, org := s, |visited|, s.calls[e].org;
      outcome := AddIfAdmitted(e, verdict, w);
      ghost var seen, added := visited, s;
      Leave(e, w.others(9));
      SeenLater(seen, visited, lo, lo, org);
      StaysSettled(was, added, s, e, was.calls[e], verdict);
    }

    /** The addition, if there is one. */
    method AddIfAdmitted(e: ExecId, verdict: Outcome, w: Weather) returns (outcome: Outcome)
      requires Valid() && e in s.calls
      requires if verdict.Admitted? then s.calls[e].phase.Cleared? else s.calls[e].phase == Leaving(verdict)
      modifies this
      ensures Valid() && old(visited) <= visited
      ensures e in s.calls && s.calls[e].org == old(s.calls[e].org) && s.calls[e].phase == Leaving(outcome)
      ensures outcome == verdict || (verdict.Admitted? && outcome.FailedOpen? && Raises(w))
      ensures outcome.Admitted? ==> SeenTracked(visited, |old(visited)|, e, old(s.calls[e].org))
      ensures Quiet(w) ==>
        outcome == verdict && s.locks == old(s.locks) && IsSettled(old(s), s, e, old(s.calls[e]), verdict)
    {
      hide IsRun;
      outcome := verdict;
      if verdict.Admitted? {
        ghost var was := Command(e, Add(e), w.others(8), w.raises(8));
        if w.raises(8) {
          outcome := FailedOpen;
        } else {
          assert IsTracked(visited[|visited| - 1], e, s.calls[e].org);
        }
      }
    }

    /** The end of the call: the lock is released if it is still the call's own. */
    method Leave(e: ExecId, todo: seq<Action>)
      requires Valid() && e in s.calls && s.calls[e].phase.Leaving?
      modifies this
      ensures Valid() && old(visited) <= visited
      ensures e in s.calls && s.calls[e].phase == Finished(old(s.calls[e].phase.outcome))
      ensures todo == [] ==>
        var o := old(s.calls[e].org);
        && s.orgs == old(s.orgs) && s.global == old(s.global)
        && s.locks == if old(o in s.locks && s.locks[o].holder == e) then old(s.locks) - {o} else old(s.locks)
    {
      hide IsRun;
      Others(e, todo);
      Do(Unlock(e));
    }

    /** The part of a call that runs with the lock held. */
    method RunLocked(e: ExecId, orgLimit: int, w: Weather) returns (outcome: Outcome)
      requires Valid() && e in s.calls && s.calls[e].phase == Holding
      modifies this
      ensures Valid() && old(visited) <= visited
      ensures e in s.calls && s.calls[e].phase == Finished(outcome)
      ensures outcome.FailedOpen? ==> Raises(w)
      ensures outcome.Admitted? ==> SeenTracked(visited, |old(visited)|, e, old(s.calls[e].org))
      ensures Checked(cfg, visited, |old(visited)|, old(s.calls[e].org), orgLimit, w, outcome)
      ensures Quiet(w) && old(s.calls[e].org in s.locks && s.locks[s.calls[e].org].holder == e) ==>
        var c := old(s.calls[e]);
        Decided(old(s), s, e, c.org, c.ts, c.cutoff, orgLimit, cfg.globalLimit, outcome)
    {
      hide IsRun;
      hide Raises;
      hide SeenOrg;
      hide SeenGlobal;
      hide SeenTracked;
      ghost var lo, org := |visited|, s.calls[e].org;
      var verdict := CheckLimits(e, orgLimit, w);
      ghost var checked := visited;
      outcome := Settle(e, verdict, w);
      CheckedLater(cfg, checked, visited, lo, lo, org, orgLimit, w, verdict);
      SeenLater(visited, visited, |checked|, lo, org);
    }

    /** `check_and_acquire` in any weather. It fails open only if the lock stayed busy or a command
        raised; what it reports was true at some moment of the call. Undisturbed, it decides by
        the entries younger than the TTL, tracks the execution in both ZSETs exactly when both
        counts are below their limits, and touches no other organization. */
    method CheckAndAcquire(e: ExecId, org: OrgId, orgLimit: int, w: Weather)
      returns (canProceed: bool, outcome: Outcome)
      requires Valid() && e !in s.calls
      modifies this
      ensures Valid() && old(visited) <= visited
      ensures e in s.calls && s.calls[e].phase == Finished(outcome)
      ensures canProceed == (outcome.Admitted? || outcome.FailedOpen?)
      ensures Justified(cfg, visited, |old(visited)|, e, org, orgLimit, w, outcome)
      ensures Quiet(w) && !LockFree(old(s), org) ==>
        && outcome == FailedOpen
        && s.orgs == old(s.orgs) && s.global == old(s.global) && s.locks == old(s.locks)
      ensures Quiet(w) && LockFree(old(s), org) ==>
        Decided(old(s), s, e, org, old(s.now), old(s.now) - cfg.ttl, orgLimit, cfg.globalLimit, outcome)
    {
      hide Step;
      hide IsRun;
      hide Enabled;
      hide Decided;
      hide Raises;
      hide SeenFree;
      hide SeenBusy;
      hide SeenTracked;
      hide Checked;
      ghost var lo := |visited|;
      var acquired := TakeLock(e, org, w);
      if !acquired {
        return true, FailedOpen;
      }
      ghost var locked, before := s, visited;
      outcome := RunLocked(e, orgLimit, w);
      canProceed := outcome.Admitted? || outcome.FailedOpen?;
      SeenLater(before, visited, lo, lo, org);
      SeenLater(visited, visited, |before|, lo, org);
      CheckedLater(cfg, visited, visited, |before|, lo, org, orgLimit, w, outcome);
      if Quiet(w) {
        DecidedSinceLock(old(s), locked, s, e, org, old(s.now), old(s.now) - cfg.ttl, orgLimit, cfg.globalLimit,
                         outcome);
      }
    }

    /** Removes the execution from the named key and from the global ZSET, and nothing else. */
    method ReleaseExecution(key: OrgId, e: ExecId)
      requires Valid()
      modifies this
      ensures Valid()
      ensures OrgZset(s, key).scores == OrgZset(old(s), key).scores - {e}
      ensures s.global.scores == old(s.global.scores) - {e}
      ensures forall o | o != key :: OrgZset(s, o) == OrgZset(old(s), o)
      ensures s.locks == old(s.locks) && s.calls == old(s.calls)
    {
      Do(ReleaseSlot(key, e));
    }

    /** Counts the entries younger than the TTL, dropping the others first. */
    method GetCurrentUsage(org: OrgId) returns (orgCount: nat, globalCount: nat)
      requires Valid()
      modifies this
      ensures Valid()
      ensures OrgZset(s, org).scores == Fresh(OrgZset(old(s), org), old(s.now) - cfg.ttl)
      ensures s.global.scores == Fresh(old(s.global), old(s.now) - cfg.ttl)
      ensures orgCount == |OrgZset(s, org).scores.Keys| && globalCount == |s.global.scores.Keys|
      ensures
        var mine, all, cutoff := OrgZset(old(s), org).scores, old(s.global.scores), old(s.now) - cfg.ttl;
        && orgCount == |set x | x in mine && (mine[x] < 0 || mine[x] > cutoff)|
        && globalCount == |set x | x in all && (all[x] < 0 || all[x] > cutoff)|
      ensures s.locks == old(s.locks) && s.calls == old(s.calls)
    {
      hide IsRun;
      Do(UsageCleanOrg(org, s.now - cfg.ttl));
      Do(UsageCleanGlobal(s.now - cfg.ttl));
      orgCount, globalCount := ZCard(OrgZset(s, org)), ZCard(s.global);
      FreshKeys(OrgZset(old(s), org), old(s.now) - cfg.ttl);
      FreshKeys(old(s.global), old(s.now) - cfg.ttl);
    }
  }
}
