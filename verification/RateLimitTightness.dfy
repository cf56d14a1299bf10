/** The bounds of `RateLimitSafety` are exact: for every limit and every number of calls in their
    sections there are runs that reach them. */
module RateLimitTightness {
  import opened RedisZset
  import opened RateLimitProtocol
  import opened RateLimitSafety

  /** Some run with at most `k` calls in their sections at any time ends in `s`. */
  ghost predicate Reachable(cfg: Config, s: State, k: nat) {
    exists tr: seq<State>, acts: seq<Action> ::
      && IsRun(cfg, tr, acts)
      && tr[|tr| - 1] == s
      && forall j | 0 <= j < |tr| :: |Sections(tr[j])| <= k
  }

  lemma Extend(cfg: Config, s: State, a: Action, t: State, k: nat)
    requires Reachable(cfg, s, k)
    requires Enabled(cfg, s, a) && Step(cfg, s, a) == t
    requires |Sections(t)| <= k
    ensures Reachable(cfg, t, k)
  {
    var tr: seq<State>, acts: seq<Action> :|
      && IsRun(cfg, tr, acts)
      && tr[|tr| - 1] == s
      && forall j | 0 <= j < |tr| :: |Sections(tr[j])| <= k;
    var tr2, acts2 := tr + [t], acts + [a];
    forall i | 0 <= i < |acts2|
      ensures Enabled(cfg, tr2[i], acts2[i]) && tr2[i + 1] == Step(cfg, tr2[i], acts2[i])
    {
      if i < |acts| {
        assert tr2[i] == tr[i] && tr2[i + 1] == tr[i + 1] && acts2[i] == acts[i];
      }
    }
    assert IsRun(cfg, tr2, acts2) && tr2[|tr2| - 1] == t;
  }

  /** Extending by a step of call `e`, which changes no other call. */
  lemma ExtendCall(cfg: Config, s: State, a: Action, t: State, e: ExecId, base: State, k: nat)
    requires Reachable(cfg, s, k)
    requires Enabled(cfg, s, a) && Step(cfg, s, a) == t
    requires e in t.calls && t.calls == base.calls[e := t.calls[e]]
    requires |Sections(base) + {e}| <= k
    ensures Reachable(cfg, t, k)
  {
    CardSubset(Sections(t), Sections(base) + {e});
    Extend(cfg, s, a, t, k);
  }

  predicate NothingStale(cfg: Config, s: State, z: Zset) {
    forall x | x in z.scores :: !(0 <= z.scores[x] <= s.now - cfg.ttl)
  }

  /** `s` with call `e` of organization `o` waiting at phase `p`. */
  function EnteringAt(s: State, e: ExecId, o: OrgId, cutoff: Time, p: Phase): State {
    s.(calls := s.calls[e := Call(o, s.now, cutoff, s.now, 0, p)])
  }

  /** `s` with call `e` of organization `o` holding the lock at phase `p`. */
  function HoldingAt(cfg: Config, s: State, e: ExecId, o: OrgId, p: Phase): State {
    s.(locks := s.locks[o := Lock(e, s.now + cfg.lockTimeout)],
       calls := s.calls[e := Call(o, s.now, s.now - cfg.ttl, s.now + cfg.lockTimeout, 0, p)])
  }

  lemma StepAcquire(cfg: Config, s: State, e: ExecId, o: OrgId)
    requires LockFree(s, o)
    ensures Enabled(cfg, EnteringAt(s, e, o, s.now - cfg.ttl, Waiting), AcquireLock(e))
    ensures Step(cfg, EnteringAt(s, e, o, s.now - cfg.ttl, Waiting), AcquireLock(e)) == HoldingAt(cfg, s, e, o, Holding)
  {
  }

  /** The cleanups of an undisturbed call find nothing to remove. */
  lemma StepCleanOrg(cfg: Config, s: State, e: ExecId, o: OrgId)
    requires o in s.orgs && NothingStale(cfg, s, s.orgs[o])
    ensures Step(cfg, HoldingAt(cfg, s, e, o, Holding), CleanOrg(e)) == HoldingAt(cfg, s, e, o, OrgCleaned)
  {
    assert ZRemRangeByScore(s.orgs[o], 0, s.now - cfg.ttl) == s.orgs[o];
  }

  lemma StepCleanGlobal(cfg: Config, s: State, e: ExecId, o: OrgId)
    requires NothingStale(cfg, s, s.global)
    ensures Step(cfg, HoldingAt(cfg, s, e, o, OrgCleaned), CleanGlobal(e)) == HoldingAt(cfg, s, e, o, GlobalCleaned)
  {
    assert ZRemRangeByScore(s.global, 0, s.now - cfg.ttl) == s.global;
  }

  lemma StepCount(cfg: Config, s: State, e: ExecId, o: OrgId)
    ensures
      Step(cfg, HoldingAt(cfg, s, e, o, GlobalCleaned), CountOrg(e)) ==
        HoldingAt(cfg, s, e, o, Counted(ZCard(OrgZset(s, o))))
  {
  }

  lemma StepCheckOrg(cfg: Config, s: State, e: ExecId, o: OrgId, limit: int, n: nat)
    requires n < limit
    ensures Step(cfg, HoldingAt(cfg, s, e, o, Counted(n)), CheckOrg(e, limit)) ==
      HoldingAt(cfg, s, e, o, OrgPassed(limit))
  {
  }

  lemma StepCheckGlobal(cfg: Config, s: State, e: ExecId, o: OrgId, limit: int)
    requires ZCard(s.global) < cfg.globalLimit
    ensures Step(cfg, HoldingAt(cfg, s, e, o, OrgPassed(limit)), CheckGlobal(e)) ==
      HoldingAt(cfg, s, e, o, Cleared(limit))
  {
  }

  lemma EnterSection(cfg: Config, s: State, e: ExecId, o: OrgId, k: nat)
    requires Reachable(cfg, s, k)
    requires e !in s.calls && LockFree(s, o) && |Sections(s) + {e}| <= k
    ensures Reachable(cfg, HoldingAt(cfg, s, e, o, Holding), k)
  {
    var s1, s2 := EnteringAt(s, e, o, s.now, Stamped), EnteringAt(s, e, o, s.now - cfg.ttl, Waiting);
    ExtendCall(cfg, s, Begin(e, o), s1, e, s, k);
    ExtendCall(cfg, s1, ReadCutoff(e), s2, e, s, k);
    StepAcquire(cfg, s, e, o);
    ExtendCall(cfg, s2, AcquireLock(e), HoldingAt(cfg, s, e, o, Holding), e, s, k);
  }

  /** An undisturbed call gets past both checks when both counts are below their limits. */
  lemma ClearOne(cfg: Config, s: State, e: ExecId, o: OrgId, limit: int, k: nat)
    requires Reachable(cfg, s, k)
    requires e !in s.calls && LockFree(s, o) && |Sections(s) + {e}| <= k
    requires o in s.orgs && NothingStale(cfg, s, s.orgs[o]) && NothingStale(cfg, s, s.global)
    requires ZCard(s.orgs[o]) < limit && ZCard(s.global) < cfg.globalLimit
    ensures Reachable(cfg, HoldingAt(cfg, s, e, o, Cleared(limit)), k)
  {
    var n := ZCard(OrgZset(s, o));
    EnterSection(cfg, s, e, o, k);
    StepCleanOrg(cfg, s, e, o);
    HoldOn(cfg, s, CleanOrg(e), e, o, Holding, OrgCleaned, k);
    StepCleanGlobal(cfg, s, e, o);
    HoldOn(cfg, s, CleanGlobal(e), e, o, OrgCleaned, GlobalCleaned, k);
    StepCount(cfg, s, e, o);
    HoldOn(cfg, s, CountOrg(e), e, o, GlobalCleaned, Counted(n), k);
    StepCheckOrg(cfg, s, e, o, limit, n);
    HoldOn(cfg, s, CheckOrg(e, limit), e, o, Counted(n), OrgPassed(limit), k);
    StepCheckGlobal(cfg, s, e, o, limit);
    HoldOn(cfg, s, CheckGlobal(e), e, o, OrgPassed(limit), Cleared(limit), k);
  }

  /** One command under the lock. */
  lemma HoldOn(cfg: Config, s: State, a: Action, e: ExecId, o: OrgId, p: Phase, q: Phase, k: nat)
    requires Reachable(cfg, HoldingAt(cfg, s, e, o, p), k) && |Sections(s) + {e}| <= k
    requires Enabled(cfg, HoldingAt(cfg, s, e, o, p), a)
    requires Step(cfg, HoldingAt(cfg, s, e, o, p), a) == HoldingAt(cfg, s, e, o, q)
    ensures Reachable(cfg, HoldingAt(cfg, s, e, o, q), k)
  {
    ExtendCall(cfg, HoldingAt(cfg, s, e, o, p), a, HoldingAt(cfg, s, e, o, q), e, s, k);
  }

  predicate StagedCall(c: Call, i: nat, n: nat, lo: nat) {
    && c.org == i
    && if i < lo then c.phase.Finished? else if i < n then c.phase.Leaving? else c.phase.Cleared? && c.ts == 0
  }

  /** Calls `lo..hi` are in their sections, and those from `n` on have yet to add. Call `i`
      belongs to organization `i`. */
  predicate StagedCalls(s: State, n: nat, lo: nat, hi: nat) {
    && (forall i | i in s.calls :: StagedCall(s.calls[i], i, n, lo) && i < hi)
    && (forall i | lo <= i < hi :: i in s.calls)
    && |Sections(s)| == hi - lo
  }

  /** Calls `0..n` are in the global ZSET. */
  predicate StagedStore(s: State, n: nat, hi: nat) {
    && (forall x | x in s.global.scores :: s.global.scores[x] == 0 && x < n)
    && ZCard(s.global) == n
    && (forall o | o in s.orgs :: o < hi) && (forall o | o in s.locks :: o < hi)
  }

  predicate Staged(s: State, n: nat, lo: nat, hi: nat) {
    s.now == 0 && lo <= n <= hi && StagedCalls(s, n, lo, hi) && StagedStore(s, n, hi)
  }

  /** Making sure the key exists changes nothing: a usage query with an old cutoff does it. */
  lemma TouchOrg(cfg: Config, s: State, o: OrgId, k: nat) returns (t: State)
    requires Reachable(cfg, s, k) && |Sections(s)| <= k
    requires o !in s.orgs
    ensures t == s.(orgs := s.orgs[o := ABSENT]) && Reachable(cfg, t, k)
    ensures Sections(t) == Sections(s)
  {
    t := s.(orgs := s.orgs[o := ABSENT]);
    assert ZRemRangeByScore(ABSENT, 0, s.now - cfg.ttl) == ABSENT;
    Extend(cfg, s, UsageCleanOrg(o, s.now - cfg.ttl), t, k);
  }

  /** `s` with call `i` of its own organization past both checks. */
  function ClearedIn(cfg: Config, s: State, i: nat): State {
    HoldingAt(cfg, s.(orgs := s.orgs[i := ABSENT]), i, i, Cleared(1))
  }

  lemma ClearKeepsCalls(cfg: Config, s: State, n: nat, lo: nat, hi: nat)
    requires s.now == 0 && lo <= n <= hi && StagedCalls(s, n, lo, hi)
    ensures hi !in s.calls && |Sections(s) + {hi}| == hi + 1 - lo
    ensures StagedCalls(ClearedIn(cfg, s, hi), n, lo, hi + 1)
  {
    assert Sections(ClearedIn(cfg, s, hi)) == Sections(s) + {hi};
  }

  lemma ClearKeepsStage(cfg: Config, s: State, n: nat, lo: nat, hi: nat)
    requires Staged(s, n, lo, hi)
    ensures hi !in s.calls && |Sections(s) + {hi}| == hi + 1 - lo
    ensures Staged(ClearedIn(cfg, s, hi), n, lo, hi + 1)
  {
    ClearKeepsCalls(cfg, s, n, lo, hi);
    hide StagedCalls;
  }

  /** One more call clears both checks, for as long as the global ZSET is below its limit. */
  lemma StageClear(cfg: Config, s: State, n: nat, lo: nat, hi: nat, k: nat) returns (t: State)
    requires cfg.ttl > 0 && n < cfg.globalLimit
    requires Reachable(cfg, s, k) && Staged(s, n, lo, hi) && hi + 1 - lo <= k
    ensures Reachable(cfg, t, k) && Staged(t, n, lo, hi + 1)
  {
    ClearKeepsStage(cfg, s, n, lo, hi);
    var s1 := TouchOrg(cfg, s, hi, k);
    ClearOne(cfg, s1, hi, hi, 1, k);
    t := ClearedIn(cfg, s, hi);
  }

  function AdmittedInto(cfg: Config, s: State, e: ExecId): State
    requires e in s.calls && s.calls[e].phase.Cleared?
  {
    var c := s.calls[e];
    s.(orgs := s.orgs[c.org := ZAddExpire(OrgZset(s, c.org), e, c.ts, s.now + cfg.ttl)],
       global := ZAddExpire(s.global, e, c.ts, s.now + cfg.ttl),
       calls := s.calls[e := c.(granted := c.phase.limit, phase := Leaving(Admitted))])
  }

  lemma AddKeepsSections(cfg: Config, s: State, e: ExecId)
    requires e in s.calls && s.calls[e].phase.Cleared?
    ensures Sections(AdmittedInto(cfg, s, e)) == Sections(s)
  {
  }

  lemma ExtendAdd(cfg: Config, s: State, e: ExecId, k: nat)
    requires Reachable(cfg, s, k) && |Sections(s)| <= k
    requires e in s.calls && s.calls[e].phase.Cleared?
    ensures Reachable(cfg, AdmittedInto(cfg, s, e), k)
    ensures Sections(AdmittedInto(cfg, s, e)) == Sections(s)
  {
    var t := AdmittedInto(cfg, s, e);
    assert Step(cfg, s, Add(e)) == t;
    AddKeepsSections(cfg, s, e);
    Extend(cfg, s, Add(e), t, k);
  }

  lemma AddKeepsCalls(cfg: Config, s: State, n: nat, lo: nat, hi: nat)
    requires lo <= n < hi && StagedCalls(s, n, lo, hi)
    ensures n in s.calls && s.calls[n].phase.Cleared?
    ensures StagedCalls(AdmittedInto(cfg, s, n), n + 1, lo, hi)
  {
    var c := s.calls[n];
    assert StagedCall(c, n, n, lo);
    var calls := AdmittedInto(cfg, s, n).calls;
    assert calls == s.calls[n := c.(granted := c.phase.limit, phase := Leaving(Admitted))];
    forall i | i in calls
      ensures StagedCall(calls[i], i, n + 1, lo) && i < hi
    {
      assert StagedCall(s.calls[i], i, n, lo);
    }
    AddKeepsSections(cfg, s, n);
  }

  lemma AddKeepsStore(cfg: Config, s: State, n: nat, hi: nat)
    requires n in s.calls && s.calls[n].phase.Cleared? && s.calls[n].org < hi && s.calls[n].ts == 0
    requires StagedStore(s, n, hi)
    ensures StagedStore(AdmittedInto(cfg, s, n), n + 1, hi)
  {
    var z := AdmittedInto(cfg, s, n).global.scores;
    assert z == s.global.scores[n := 0] && n !in s.global.scores;
    assert z.Keys == s.global.scores.Keys + {n};
  }

  lemma AddKeepsStage(cfg: Config, s: State, n: nat, lo: nat, hi: nat)
    requires Staged(s, n, lo, hi) && n < hi
    ensures n in s.calls && s.calls[n].phase.Cleared?
    ensures Staged(AdmittedInto(cfg, s, n), n + 1, lo, hi)
  {
    AddKeepsCalls(cfg, s, n, lo, hi);
    assert StagedCall(s.calls[n], n, n, lo);
    AddKeepsStore(cfg, s, n, hi);
  }

  /** The first cleared call adds itself. */
  lemma StageAdd(cfg: Config, s: State, n: nat, lo: nat, hi: nat, k: nat) returns (t: State)
    requires Reachable(cfg, s, k) && Staged(s, n, lo, hi) && n < hi && hi - lo <= k
    ensures Reachable(cfg, t, k) && Staged(t, n + 1, lo, hi)
  {
    AddKeepsStage(cfg, s, n, lo, hi);
    ExtendAdd(cfg, s, n, k);
    t := AdmittedInto(cfg, s, n);
  }

  /** The oldest call in its section leaves it, once it has added. */
  lemma StageUnlock(cfg: Config, s: State, n: nat, lo: nat, hi: nat, k: nat) returns (t: State)
    requires Reachable(cfg, s, k) && Staged(s, n, lo, hi) && lo < n && hi - lo <= k
    ensures Reachable(cfg, t, k) && Staged(t, n, lo + 1, hi)
  {
    t := Step(cfg, s, Unlock(lo));
    assert t.calls == s.calls[lo := s.calls[lo].(phase := Finished(s.calls[lo].phase.outcome))];
    assert Sections(t) == Sections(s) - {lo};
    Extend(cfg, s, Unlock(lo), t, k);
  }

  lemma {:induction false} Fill(cfg: Config, n: nat, k: nat) returns (s: State)
    requires cfg.ttl > 0 && n < cfg.globalLimit && k >= 1
    ensures Reachable(cfg, s, k) && Staged(s, n, n, n)
  {
    if n == 0 {
      s := State(0, map[], ABSENT, map[], map[]);
      assert Sections(s) == {};
      assert IsRun(cfg, [s], []);
      assert [s][|[s]| - 1] == s;
    } else {
      s := Fill(cfg, n - 1, k);
      s := StageClear(cfg, s, n - 1, n - 1, n - 1, k);
      s := StageAdd(cfg, s, n - 1, n - 1, n, k);
      s := StageUnlock(cfg, s, n, n - 1, n, k);
    }
  }

  lemma {:induction false} ClearMany(cfg: Config, n: nat, c: nat, k: nat) returns (s: State)
    requires cfg.ttl > 0 && n < cfg.globalLimit && c <= k && k >= 1
    ensures Reachable(cfg, s, k) && Staged(s, n, n, n + c)
  {
    if c == 0 {
      s := Fill(cfg, n, k);
    } else {
      s := ClearMany(cfg, n, c - 1, k);
      s := StageClear(cfg, s, n, n, n + c - 1, k);
    }
  }

  lemma {:induction false} AddMany(cfg: Config, n: nat, c: nat, k: nat) returns (s: State)
    requires cfg.ttl > 0 && n < cfg.globalLimit && c <= k && k >= 1
    ensures Reachable(cfg, s, k) && Staged(s, n + c, n, n + k)
  {
    if c == 0 {
      s := ClearMany(cfg, n, k, k);
    } else {
      s := AddMany(cfg, n, c - 1, k);
      s := StageAdd(cfg, s, n + c - 1, n, n + k, k);
    }
  }

  /** For every positive limit and every `k`, some run with at most `k` calls in their
      sections fills the global ZSET to the limit plus `k - 1`. So no percentage of the limit
      bounds the overshoot: it is the concurrency that does. */
  lemma OvershootIsReached(cfg: Config, k: nat) returns (s: State)
    requires cfg.ttl > 0 && cfg.globalLimit >= 1 && k >= 1
    ensures Reachable(cfg, s, k)
    ensures ZCard(s.global) == cfg.globalLimit + k - 1
  {
    s := AddMany(cfg, cfg.globalLimit - 1, k, k);
  }

  /** The global limit holds in all runs if and only if no two calls are in their sections at once. */
  lemma GlobalLimitIffAlone(cfg: Config, k: nat)
    requires cfg.ttl > 0 && cfg.globalLimit >= 1
    ensures (forall s | Reachable(cfg, s, k) :: ZCard(s.global) <= cfg.globalLimit) <==> k <= 1
  {
    if k <= 1 {
      forall s | Reachable(cfg, s, k)
        ensures ZCard(s.global) <= cfg.globalLimit
      {
        var tr: seq<State>, acts: seq<Action> :|
          && IsRun(cfg, tr, acts)
          && tr[|tr| - 1] == s
          && forall j | 0 <= j < |tr| :: |Sections(tr[j])| <= k;
        GlobalOvershoot(cfg, tr, acts, k, |tr| - 1);
      }
    } else {
      var s := OvershootIsReached(cfg, k);
      assert Reachable(cfg, s, k) && ZCard(s.global) > cfg.globalLimit;
    }
  }

  // ---------------------------------------------------------------- one organization

  /** Of the calls of organization `o`, `0..c` got past both checks and paused there until their
      leases ran out, and `c..c + n` have come and gone. The first `j` have woken up and added. */
  predicate PausedCall(call: Call, i: nat, o: OrgId, m: int, c: nat, j: nat) {
    && call.org == o && call.granted <= m
    && if i < j then call.phase == Leaving(Admitted) else if i < c then call.phase ==
      Cleared(m) else call.phase.Finished?
  }

  ghost predicate PausedCalls(calls: map<ExecId, Call>, o: OrgId, m: int, c: nat, n: nat, j: nat) {
    forall i: nat ::
      if i < c + n then i in calls && PausedCall(calls[i], i, o, m, c, j) else i !in calls
  }

  predicate Entries(scores: map<ExecId, Time>, now: Time, c: nat, n: nat, j: nat) {
    && |scores.Keys| == n + j
    && (forall x | x in scores :: x < j || c <= x < c + n)
    && (j == 0 ==> forall x | x in scores :: scores[x] == now)
  }

  /** Both ZSETs hold the same entries. */
  predicate PausedStore(s: State, o: OrgId, c: nat, n: nat, j: nat) {
    && o in s.orgs && s.orgs[o].scores == s.global.scores && Entries(s.global.scores, s.now, c, n, j)
    && (j == 0 ==> LockFree(s, o))
  }

  ghost predicate Paused(s: State, o: OrgId, m: int, c: nat, n: nat, j: nat) {
    j <= c && m >= 0 && PausedCalls(s.calls, o, m, c, n, j) && PausedStore(s, o, c, n, j)
  }

  function Below(c: nat): set<ExecId> { if c == 0 then {} else Below(c - 1) + {c - 1} }

  lemma {:induction false} BelowIs(c: nat)
    ensures |Below(c)| == c && forall i: nat :: i in Below(c) <==> i < c
  {
    if c > 0 {
      BelowIs(c - 1);
    }
  }

  lemma PausedSections(s: State, o: OrgId, m: int, c: nat, n: nat, j: nat)
    requires j <= c && PausedCalls(s.calls, o, m, c, n, j)
    ensures |Sections(s)| == c
    ensures |Sections(s) + {c + n}| == c + 1 && c + n !in s.calls
  {
    BelowIs(c);
    forall e
      ensures e in Sections(s) <==> e in Below(c)
    {
      assert e in s.calls ==> PausedCall(s.calls[e], e, o, m, c, j);
    }
    assert Sections(s) == Below(c) && c + n !in Below(c);
  }

  lemma NobodyPaused(cfg: Config, o: OrgId, m: int, k: nat) returns (s: State)
    requires m >= 0
    ensures Reachable(cfg, s, k) && Paused(s, o, m, 0, 0, 0)
  {
    var s0 := State(0, map[], ABSENT, map[], map[]);
    assert Sections(s0) == {};
    assert IsRun(cfg, [s0], []) && [s0][|[s0]| - 1] == s0;
    s := TouchOrg(cfg, s0, o, k);
  }

  /** One more call gets past both checks. */
  lemma ClearAnother(cfg: Config, s: State, o: OrgId, m: int, c: nat, n: nat, k: nat)
    requires cfg.ttl > 0 && n < m && n < cfg.globalLimit
    requires Reachable(cfg, s, k) && Paused(s, o, m, c, n, 0) && c + 1 <= k
    ensures Reachable(cfg, HoldingAt(cfg, s, c + n, o, Cleared(m)), k)
    ensures |Sections(HoldingAt(cfg, s, c + n, o, Cleared(m)))| <= k
  {
    hide PausedCalls;
    hide PausedStore;
    hide Sections;
    hide HoldingAt;
    hide Reachable;
    hide NothingStale;
    hide LockFree;
    var e := c + n;
    PausedSections(s, o, m, c, n, 0);
    NothingStaleYet(cfg, s, o, c, n);
    ClearNext(cfg, s, e, o, m, n, k);
  }

  lemma ClearNext(cfg: Config, s: State, e: ExecId, o: OrgId, m: int, n: nat, k: nat)
    requires n < m && n < cfg.globalLimit && Reachable(cfg, s, k)
    requires e !in s.calls && |Sections(s) + {e}| <= k && LockFree(s, o)
    requires o in s.orgs && NothingStale(cfg, s, s.orgs[o]) && NothingStale(cfg, s, s.global)
    requires ZCard(s.orgs[o]) == n == ZCard(s.global)
    ensures Reachable(cfg, HoldingAt(cfg, s, e, o, Cleared(m)), k)
    ensures |Sections(HoldingAt(cfg, s, e, o, Cleared(m)))| <= k
  {
    hide Sections;
    hide HoldingAt;
    hide Reachable;
    hide NothingStale;
    hide LockFree;
    ClearOne(cfg, s, e, o, m, k);
    HoldingSections(cfg, s, e, o, Cleared(m));
  }

  lemma NothingStaleYet(cfg: Config, s: State, o: OrgId, c: nat, n: nat)
    requires cfg.ttl > 0 && PausedStore(s, o, c, n, 0)
    ensures o in s.orgs && NothingStale(cfg, s, s.orgs[o]) && NothingStale(cfg, s, s.global)
    ensures LockFree(s, o) && ZCard(s.orgs[o]) == n == ZCard(s.global)
  {
  }

  lemma HoldingSections(cfg: Config, s: State, e: ExecId, o: OrgId, p: Phase)
    ensures |Sections(HoldingAt(cfg, s, e, o, p))| <= |Sections(s) + {e}|
  {
    CardSubset(Sections(HoldingAt(cfg, s, e, o, p)), Sections(s) + {e});
  }

  lemma PausedAnother(cfg: Config, s: State, o: OrgId, m: int, c: nat)
    requires cfg.lockTimeout >= 0 && Paused(s, o, m, c, 0, 0)
    ensures
      Paused(HoldingAt(cfg, s, c, o, Cleared(m)).(now := s.now + cfg.lockTimeout), o, m, c + 1, 0, 0)
  {
    var t := HoldingAt(cfg, s, c, o, Cleared(m)).(now := s.now + cfg.lockTimeout);
    assert PausedStore(t, o, c + 1, 0, 0);
    forall i: nat
      ensures if i < c + 1 then i in t.calls && PausedCall(t.calls[i], i, o, m, c + 1, 0) else i !in t.calls
    {
      assert i < c ==> PausedCall(s.calls[i], i, o, m, c, 0);
    }
  }

  /** One more call clears both checks and sleeps until its lease has run out. */
  lemma PauseOne(cfg: Config, s: State, o: OrgId, m: int, c: nat, k: nat) returns (t: State)
    requires cfg.ttl > 0 && cfg.lockTimeout >= 0 && cfg.globalLimit >= 1 && m >= 1
    requires Reachable(cfg, s, k) && Paused(s, o, m, c, 0, 0) && c + 1 <= k
    ensures Reachable(cfg, t, k) && Paused(t, o, m, c + 1, 0, 0)
  {
    ClearAnother(cfg, s, o, m, c, 0, k);
    var u := HoldingAt(cfg, s, c, o, Cleared(m));
    t := u.(now := s.now + cfg.lockTimeout);
    PausedAnother(cfg, s, o, m, c);
    hide Paused;
    assert Sections(t) == Sections(u);
    assert Step(cfg, u, Tick(cfg.lockTimeout)) == t;
    Extend(cfg, u, Tick(cfg.lockTimeout), t, k);
  }

  lemma {:induction false} PauseMany(cfg: Config, o: OrgId, m: int, c: nat, k: nat) returns (s: State)
    requires cfg.ttl > 0 && cfg.lockTimeout >= 0 && cfg.globalLimit >= 1 && m >= 1 && c <= k
    ensures Reachable(cfg, s, k) && Paused(s, o, m, c, 0, 0)
  {
    if c == 0 {
      s := NobodyPaused(cfg, o, m, k);
    } else {
      s := PauseMany(cfg, o, m, c - 1, k);
      s := PauseOne(cfg, s, o, m, c - 1, k);
    }
  }

  /** `s` after an undisturbed call has been admitted and has left. */
  function ServedIn(cfg: Config, s: State, e: ExecId, o: OrgId, m: int): State {
    var t := AdmittedInto(cfg, HoldingAt(cfg, s, e, o, Cleared(m)), e);
    t.(calls := t.calls[e := t.calls[e].(phase := Finished(Admitted))], locks := t.locks - {o})
  }

  lemma ServedCalls(cfg: Config, s: State, o: OrgId, m: int, c: nat, n: nat)
    requires m >= 0 && PausedCalls(s.calls, o, m, c, n, 0)
    ensures PausedCalls(ServedIn(cfg, s, c + n, o, m).calls, o, m, c, n + 1, 0)
  {
    var e := c + n;
    var calls := ServedIn(cfg, s, e, o, m).calls;
    assert calls == s.calls[e := calls[e]];
    forall i: nat
      ensures if i < c + n + 1 then i in calls && PausedCall(calls[i], i, o, m, c, 0) else i !in calls
    {
      assert i < e ==> PausedCall(s.calls[i], i, o, m, c, 0);
    }
  }

  lemma ServedStore(cfg: Config, s: State, o: OrgId, m: int, c: nat, n: nat)
    requires PausedStore(s, o, c, n, 0)
    ensures PausedStore(ServedIn(cfg, s, c + n, o, m), o, c, n + 1, 0)
  {
    ServedEntries(cfg, s, c + n, o, m);
    OneMoreEntry(s.global.scores, s.now, c, n);
    hide ServedIn;
    hide Entries;
  }

  lemma OneMoreEntry(scores: map<ExecId, Time>, now: Time, c: nat, n: nat)
    requires Entries(scores, now, c, n, 0)
    ensures Entries(scores[c + n := now], now, c, n + 1, 0)
  {
    assert scores[c + n := now].Keys == scores.Keys + {c + n};
  }

  lemma ServedEntries(cfg: Config, s: State, e: ExecId, o: OrgId, m: int)
    requires o in s.orgs
    ensures
      var t := ServedIn(cfg, s, e, o, m);
      && t.global.scores == s.global.scores[e := s.now]
      && o in t.orgs && t.orgs[o].scores == s.orgs[o].scores[e := s.now]
      && t.now == s.now && LockFree(t, o)
  {
  }

  /** One more call comes, is admitted and leaves. */
  lemma ServeOne(cfg: Config, s: State, o: OrgId, m: int, c: nat, n: nat, k: nat) returns (t: State)
    requires cfg.ttl > 0 && n < m && n < cfg.globalLimit
    requires Reachable(cfg, s, k) && Paused(s, o, m, c, n, 0) && c + 1 <= k
    ensures Reachable(cfg, t, k) && Paused(t, o, m, c, n + 1, 0)
  {
    hide PausedCalls;
    hide PausedStore;
    hide ServedIn;
    hide HoldingAt;
    hide Sections;
    hide Reachable;
    t := ServedIn(cfg, s, c + n, o, m);
    ClearAnother(cfg, s, o, m, c, n, k);
    ServedCalls(cfg, s, o, m, c, n);
    ServedStore(cfg, s, o, m, c, n);
    PausedSections(t, o, m, c, n + 1, 0);
    ServeSteps(cfg, s, c + n, o, m, k);
  }

  lemma ServeSteps(cfg: Config, s: State, e: ExecId, o: OrgId, m: int, k: nat)
    requires Reachable(cfg, HoldingAt(cfg, s, e, o, Cleared(m)), k)
    requires |Sections(HoldingAt(cfg, s, e, o, Cleared(m)))| <= k && |Sections(ServedIn(cfg, s, e, o, m))| <= k
    ensures Reachable(cfg, ServedIn(cfg, s, e, o, m), k)
  {
    LeaveAfterAdd(cfg, s, e, o, m);
    hide Sections;
    hide HoldingAt;
    hide AdmittedInto;
    hide ServedIn;
    hide Reachable;
    hide Step;
    hide Enabled;
    var u := HoldingAt(cfg, s, e, o, Cleared(m));
    ExtendAdd(cfg, u, e, k);
    Extend(cfg, AdmittedInto(cfg, u, e), Unlock(e), ServedIn(cfg, s, e, o, m), k);
  }

  lemma LeaveAfterAdd(cfg: Config, s: State, e: ExecId, o: OrgId, m: int)
    ensures
      var v := HoldingAt(cfg, s, e, o, Cleared(m));
      e in v.calls && v.calls[e].phase.Cleared?
    ensures
      var u := AdmittedInto(cfg, HoldingAt(cfg, s, e, o, Cleared(m)), e);
      Enabled(cfg, u, Unlock(e)) && Step(cfg, u, Unlock(e)) == ServedIn(cfg, s, e, o, m)
  {
  }

  lemma {:induction false} ServeMany(cfg: Config, o: OrgId, m: int, c: nat, n: nat, k: nat) returns (s: State)
    requires cfg.ttl > 0 && cfg.lockTimeout >= 0 && 1 <= m <= cfg.globalLimit && n <= m && c + 1 <= k
    ensures Reachable(cfg, s, k) && Paused(s, o, m, c, n, 0)
  {
    if n == 0 {
      s := PauseMany(cfg, o, m, c, k);
    } else {
      s := ServeMany(cfg, o, m, c, n - 1, k);
      s := ServeOne(cfg, s, o, m, c, n - 1, k);
    }
  }

  lemma WakeKeepsCalls(cfg: Config, s: State, o: OrgId, m: int, c: nat, n: nat, j: nat)
    requires j < c && PausedCalls(s.calls, o, m, c, n, j)
    ensures j in s.calls && s.calls[j].phase == Cleared(m) && s.calls[j].org == o
    ensures PausedCalls(AdmittedInto(cfg, s, j).calls, o, m, c, n, j + 1)
  {
    assert PausedCall(s.calls[j], j, o, m, c, j);
    var calls := AdmittedInto(cfg, s, j).calls;
    forall i: nat
      ensures if i < c + n then i in calls && PausedCall(calls[i], i, o, m, c, j + 1) else i !in calls
    {
      assert i < c + n ==> PausedCall(s.calls[i], i, o, m, c, j);
    }
  }

  lemma WakeKeepsStore(cfg: Config, s: State, o: OrgId, c: nat, n: nat, j: nat)
    requires j < c && j in s.calls && s.calls[j].phase.Cleared? && s.calls[j].org == o
    requires PausedStore(s, o, c, n, j)
    ensures PausedStore(AdmittedInto(cfg, s, j), o, c, n, j + 1)
  {
    var t, ts := AdmittedInto(cfg, s, j), s.calls[j].ts;
    assert s.global.scores[j := ts].Keys == s.global.scores.Keys + {j};
  }

  /** One more paused call wakes up and adds itself. */
  lemma WakeOne(cfg: Config, s: State, o: OrgId, m: int, c: nat, n: nat, j: nat, k: nat) returns (t: State)
    requires Reachable(cfg, s, k) && Paused(s, o, m, c, n, j) && j < c <= k
    ensures Reachable(cfg, t, k) && Paused(t, o, m, c, n, j + 1)
  {
    WakeKeepsCalls(cfg, s, o, m, c, n, j);
    WakeKeepsStore(cfg, s, o, c, n, j);
    PausedSections(s, o, m, c, n, j);
    hide PausedCalls;
    hide PausedStore;
    ExtendAdd(cfg, s, j, k);
    t := AdmittedInto(cfg, s, j);
  }

  lemma {:induction false} WakeMany(cfg: Config, o: OrgId, m: int, c: nat, j: nat, k: nat) returns (s: State)
    requires cfg.ttl > 0 && cfg.lockTimeout >= 0 && 1 <= m <= cfg.globalLimit && j <= c && c + 1 <= k
    ensures Reachable(cfg, s, k) && Paused(s, o, m, c, m, j)
  {
    if j == 0 {
      s := ServeMany(cfg, o, m, c, m, k);
    } else {
      s := WakeMany(cfg, o, m, c, j - 1, k);
      s := WakeOne(cfg, s, o, m, c, m, j - 1, k);
    }
  }

  /** For every org limit that the global one admits, every lease and every `k`, some run with at
      most `k` calls in their sections fills the organization's ZSET to the limit plus `k - 1`:
      all but one of them pause past their leases between the checks and the addition. */
  lemma OrgOvershootIsReached(cfg: Config, o: OrgId, m: int, k: nat) returns (s: State)
    requires cfg.ttl > 0 && cfg.lockTimeout >= 0 && 1 <= m <= cfg.globalLimit && k >= 1
    ensures Reachable(cfg, s, k)
    ensures BoundsGrants(s, o, m) && ZCard(OrgZset(s, o)) == m + k - 1
  {
    s := WakeMany(cfg, o, m, k - 1, k - 1, k);
    forall e | e in s.calls
      ensures s.calls[e].granted <= m
    {
      assert PausedCall(s.calls[e], e, o, m, k - 1, k - 1);
    }
  }

  /** Some run with at most `k` calls of organization `o` in their sections at any time, whatever
      other organizations do, ends in `s`. */
  ghost predicate OrgReachable(cfg: Config, s: State, o: OrgId, k: nat) {
    exists tr: seq<State>, acts: seq<Action> ::
      && IsRun(cfg, tr, acts)
      && tr[|tr| - 1] == s
      && forall j | 0 <= j < |tr| :: |OrgSections(tr[j], o)| <= k
  }

  lemma ReachableForOrg(cfg: Config, s: State, o: OrgId, k: nat)
    requires Reachable(cfg, s, k)
    ensures OrgReachable(cfg, s, o, k)
  {
    var tr: seq<State>, acts: seq<Action> :|
      && IsRun(cfg, tr, acts)
      && tr[|tr| - 1] == s
      && forall j | 0 <= j < |tr| :: |Sections(tr[j])| <= k;
    forall j | 0 <= j < |tr|
      ensures |OrgSections(tr[j], o)| <= k
    {
      CardSubset(OrgSections(tr[j], o), Sections(tr[j]));
    }
  }

  /** An organization's limit holds in all runs if and only if no two of its calls are in their
      sections at once. Outliving a lease breaks it by letting in a second one, and not otherwise. */
  lemma OrgLimitIffAlone(cfg: Config, o: OrgId, m: int, k: nat)
    requires cfg.ttl > 0 && cfg.lockTimeout >= 0 && 1 <= m <= cfg.globalLimit
    ensures (forall s | OrgReachable(cfg, s, o, k) && BoundsGrants(s, o, m) :: ZCard(OrgZset(s, o)) <= m) <==> k <= 1
  {
    if k <= 1 {
      forall s | OrgReachable(cfg, s, o, k) && BoundsGrants(s, o, m)
        ensures ZCard(OrgZset(s, o)) <= m
      {
        var tr: seq<State>, acts: seq<Action> :|
          && IsRun(cfg, tr, acts)
          && tr[|tr| - 1] == s
          && forall j | 0 <= j < |tr| :: |OrgSections(tr[j], o)| <= k;
        OrgOvershoot(cfg, tr, acts, o, m, k, |tr| - 1);
      }
    } else {
      var s := OrgOvershootIsReached(cfg, o, m, k);
      ReachableForOrg(cfg, s, o, k);
      assert OrgReachable(cfg, s, o, k) && BoundsGrants(s, o, m) && ZCard(OrgZset(s, o)) > m;
    }
  }
}
