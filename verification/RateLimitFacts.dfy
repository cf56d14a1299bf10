/** The rate limiter's guarantees in terms of its actions, its clock and its ZSETs alone. */
module RateLimitFacts {
  import opened RedisZset
  import opened RateLimitProtocol
  import opened RateLimitSafety
  import opened RateLimiter

  /** The scores of an organization's entries. */
  function OrgScores(s: State, o: OrgId): map<ExecId, Time> {
    if o in s.orgs then s.orgs[o].scores else map[]
  }

  // ---------------------------------------------------------------- the two ZSETs

  /** As long as every execution is released under the organization of its call, an execution
      that called less than `ttl` ago is in its organization's ZSET if and only if it is in the
      global one, and its score is the time of its call in both. */
  lemma SlotsAgree(cfg: Config, tr: seq<State>, acts: seq<Action>, i: nat)
    requires IsRun(cfg, tr, acts) && i < |tr|
    requires forall j | 0 <= j < |acts| && acts[j].ReleaseSlot? && acts[j].e in tr[j].calls ::
               acts[j].key == tr[j].calls[acts[j].e].org
    ensures forall e | e in tr[i].calls && tr[i].now - tr[i].calls[e].ts < cfg.ttl ::
              e in OrgScores(tr[i], tr[i].calls[e].org) <==> e in tr[i].global.scores
    ensures forall o, e | e in OrgScores(tr[i], o) ::
              e in tr[i].calls && tr[i].calls[e].org == o && OrgScores(tr[i], o)[e] == tr[i].calls[e].ts
    ensures forall e | e in tr[i].global.scores ::
              e in tr[i].calls && tr[i].global.scores[e] == tr[i].calls[e].ts
  {
    ZsetsAgree(cfg, tr, acts, i);
    hide IsRun;
    var s := tr[i];
    forall e | e in s.calls && s.now - s.calls[e].ts < cfg.ttl
      ensures e in OrgScores(s, s.calls[e].org) <==> e in s.global.scores
    {
      assert Young(cfg, s, e);
      assert HasSlot(s, e) <==> e in s.global.scores;
    }
    forall o, e | e in OrgScores(s, o)
      ensures e in s.calls && s.calls[e].org == o && OrgScores(s, o)[e] == s.calls[e].ts
    {
      assert StampedZset(cfg, s.calls, s.orgs[o]) && OwnEntries(s.calls, o, s.orgs[o]);
    }
  }

  // ---------------------------------------------------------------- the limits

  /** The limits a call has been let through under. */
  predicate LetThroughUnder(c: Call, m: int) {
    c.granted <= m && (c.phase.OrgPassed? ==> c.phase.limit <= m) && (c.phase.Cleared? ==> c.phase.limit <= m)
  }

  lemma LetThroughStep(cfg: Config, s: State, a: Action, e: ExecId, m: int)
    requires Enabled(cfg, s, a) && m >= 0 && (a.CheckOrg? ==> a.orgLimit <= m)
    requires e in s.calls ==> LetThroughUnder(s.calls[e], m)
    ensures e in Step(cfg, s, a).calls ==> LetThroughUnder(Step(cfg, s, a).calls[e], m)
  {
  }

  lemma {:induction false} LetThrough(cfg: Config, tr: seq<State>, acts: seq<Action>, m: int, i: nat)
    requires IsRun(cfg, tr, acts) && i < |tr| && m >= 0
    requires forall j | 0 <= j < |acts| && acts[j].CheckOrg? :: acts[j].orgLimit <= m
    ensures forall e | e in tr[i].calls :: LetThroughUnder(tr[i].calls[e], m)
  {
    hide LetThroughUnder;
    if i > 0 {
      LetThrough(cfg, tr, acts, m, i - 1);
      assert tr[i - 1 + 1] == Step(cfg, tr[i - 1], acts[i - 1]);
      forall e | e in tr[i].calls ensures LetThroughUnder(tr[i].calls[e], m) {
        LetThroughStep(cfg, tr[i - 1], acts[i - 1], e, m);
      }
    }
  }

  /** No call works on past the end of the lease it took. */
  ghost predicate NobodyOverstays(s: State) {
    forall e | e in s.calls && s.now >= s.calls[e].lease ::
      var p := s.calls[e].phase; p.Stamped? || p.Waiting? || p.Finished? || p.Dead?
  }

  /** If no limit read is above `m` and no call overstays its lease, no organization ever has
      more than `m` executions. */
  lemma LimitIsKept(cfg: Config, tr: seq<State>, acts: seq<Action>, m: int, i: nat, o: OrgId)
    requires IsRun(cfg, tr, acts) && i < |tr| && m >= 0
    requires forall j | 0 <= j < |acts| && acts[j].CheckOrg? :: acts[j].orgLimit <= m
    requires forall j | 0 <= j < |tr| :: NobodyOverstays(tr[j])
    ensures |OrgScores(tr[i], o).Keys| <= m
  {
    LetThrough(cfg, tr, acts, m, i);
    hide IsRun;
    forall j | 0 <= j < |tr| ensures Timely(tr[j]) { assert NobodyOverstays(tr[j]); }
    OrgLimitHolds(cfg, tr, acts, i);
    assert BoundsGrants(tr[i], o, m);
  }

  // ---------------------------------------------------------------- the lock

  lemma LockStep(cfg: Config, s: State, a: Action, o: OrgId, e: ExecId, until: Time)
    requires Enabled(cfg, s, a) && a != Unlock(e) && s.now < until
    requires o in s.locks && s.locks[o] == Lock(e, until)
    ensures o in Step(cfg, s, a).locks && Step(cfg, s, a).locks[o] == Lock(e, until)
    ensures Step(cfg, s, a).now >= s.now
  {
  }

  lemma {:induction false} ClockNeverGoesBack(cfg: Config, tr: seq<State>, acts: seq<Action>, i: nat, j: nat)
    requires IsRun(cfg, tr, acts) && i <= j < |tr|
    ensures tr[i].now <= tr[j].now
    decreases j
  {
    if i < j {
      assert tr[j - 1 + 1] == Step(cfg, tr[j - 1], acts[j - 1]);
      ClockNeverGoesBack(cfg, tr, acts, i, j - 1);
    }
  }

  /** A lock is its taker's until it releases it or `lockTimeout` has passed, whatever anybody
      else does and even if the taker crashes. */
  lemma {:induction false} LockIsKept(cfg: Config, tr: seq<State>, acts: seq<Action>, i: nat, j: nat, e: ExecId)
    requires IsRun(cfg, tr, acts) && i < j < |tr| && acts[i] == AcquireLock(e)
    requires forall k | i < k < j :: acts[k] != Unlock(e)
    requires i < j - 1 ==> tr[j - 1].now < tr[i].now + cfg.lockTimeout
    ensures
      && e in tr[i].calls
      && var o := tr[i].calls[e].org; o in tr[j].locks && tr[j].locks[o] == Lock(e, tr[i].now + cfg.lockTimeout)
    decreases j
  {
    assert Enabled(cfg, tr[i], acts[i]);
    assert tr[j - 1 + 1] == Step(cfg, tr[j - 1], acts[j - 1]) && Enabled(cfg, tr[j - 1], acts[j - 1]);
    if i < j - 1 {
      ClockNeverGoesBack(cfg, tr, acts, j - 2, j - 1);
      LockIsKept(cfg, tr, acts, i, j - 1, e);
      LockStep(cfg, tr[j - 1], acts[j - 1], tr[i].calls[e].org, e, tr[i].now + cfg.lockTimeout);
    }
  }

  /** Two calls of one organization take its lock at least `lockTimeout` apart, unless the first
      has released it in between. */
  lemma LocksAreApart(cfg: Config, tr: seq<State>, acts: seq<Action>, i: nat, j: nat, e: ExecId, f: ExecId)
    requires IsRun(cfg, tr, acts) && i < j < |acts| && acts[i] == AcquireLock(e) && acts[j] == AcquireLock(f)
    requires e in tr[i].calls && f in tr[j].calls && tr[i].calls[e].org == tr[j].calls[f].org
    ensures tr[j].now >= tr[i].now + cfg.lockTimeout || exists k | i < k < j :: acts[k] == Unlock(e)
  {
    assert Enabled(cfg, tr[j], acts[j]);
    if tr[j].now < tr[i].now + cfg.lockTimeout && forall k | i < k < j :: acts[k] != Unlock(e) {
      ClockNeverGoesBack(cfg, tr, acts, j - 1, j);
      LockIsKept(cfg, tr, acts, i, j, e);
    }
  }

  lemma CallStep(cfg: Config, s: State, a: Action, e: ExecId)
    requires Enabled(cfg, s, a) && e in s.calls
    ensures e in Step(cfg, s, a).calls
    ensures Step(cfg, s, a).calls[e].org == s.calls[e].org && Step(cfg, s, a).calls[e].ts == s.calls[e].ts
  {
  }

  /** A call's organization is the one it began with, and its stamp the time it began. */
  lemma {:induction false} CallKeepsItsTime(cfg: Config, tr: seq<State>, acts: seq<Action>, i: nat, j: nat, e: ExecId,
                                            o: OrgId)
    requires IsRun(cfg, tr, acts) && i < j < |tr| && acts[i] == Begin(e, o)
    ensures e in tr[j].calls && tr[j].calls[e].org == o && tr[j].calls[e].ts == tr[i].now
    decreases j
  {
    assert tr[j - 1 + 1] == Step(cfg, tr[j - 1], acts[j - 1]);
    if i < j - 1 {
      CallKeepsItsTime(cfg, tr, acts, i, j - 1, e, o);
      CallStep(cfg, tr[j - 1], acts[j - 1], e);
    }
  }

  /** An addition gives both whole keys the time to live, to the tick. */
  lemma KeysExpireTogether(cfg: Config, s: State, e: ExecId, d: nat)
    requires Enabled(cfg, s, Add(e))
    ensures
      var t := Step(cfg, Step(cfg, s, Add(e)), Tick(d));
      && (Enabled(cfg, t, ExpireOrg(s.calls[e].org)) <==> d >= cfg.ttl)
      && (Enabled(cfg, t, ExpireGlobal) <==> d >= cfg.ttl)
  {
  }

  // ---------------------------------------------------------------- a call by itself

  /** The entries a call counts: those whose score is negative or above its cutoff. */
  function Kept(scores: map<ExecId, Time>, cutoff: Time): set<ExecId> {
    set x | x in scores && (scores[x] < 0 || scores[x] > cutoff)
  }

  /** The entries a call leaves in a ZSET: those it counted, and its own if it was admitted. */
  ghost predicate Leaves(before: map<ExecId, Time>, after: map<ExecId, Time>, cutoff: Time, e: ExecId, ts: Time,
                         admitted: bool) {
    && after.Keys == Kept(before, cutoff) + (if admitted then {e} else {})
    && (admitted ==> after[e] == ts)
    && (forall x | x in after && !(admitted && x == e) :: x in before && after[x] == before[x])
  }

  lemma TrackedLeaves(z: Zset, cutoff: Time, e: ExecId, ts: Time, outcome: Outcome)
    ensures Leaves(z.scores, Tracked(Fresh(z, cutoff), e, ts, outcome), cutoff, e, ts, outcome.Admitted?)
  {
    FreshKeys(z, cutoff);
  }

  lemma VerdictIs(mine: Zset, all: Zset, cutoff: Time, orgLimit: int, globalLimit: int)
    ensures
      var n, g := |Kept(mine.scores, cutoff)|, |Kept(all.scores, cutoff)|;
      Verdict(Fresh(mine, cutoff), Fresh(all, cutoff), orgLimit, globalLimit) ==
      if n >= orgLimit then OrgLimited(n, orgLimit) else if g >= globalLimit then GlobalLimited(g) else Admitted
  {
    FreshKeys(mine, cutoff);
    FreshKeys(all, cutoff);
    assert Fresh(mine, cutoff).Keys == Kept(mine.scores, cutoff);
    assert Fresh(all, cutoff).Keys == Kept(all.scores, cutoff);
  }

  lemma ScoresAre(s: State, o: OrgId)
    ensures OrgZset(s, o).scores == OrgScores(s, o)
  {
  }

  /** What a call does that nobody disturbs: it counts the entries above its cutoff, admits itself
      if both counts are below their limits, leaves what it counted and, if admitted, its own
      entry, touches no other organization and frees the lock. */
  lemma DecidedIs(before: State, after: State, e: ExecId, org: OrgId, ts: Time, cutoff: Time, orgLimit: int,
                  globalLimit: int, outcome: Outcome)
    requires Decided(before, after, e, org, ts, cutoff, orgLimit, globalLimit, outcome)
    ensures
      var n, g := |Kept(OrgScores(before, org), cutoff)|, |Kept(before.global.scores, cutoff)|;
      outcome ==
      if n >= orgLimit then OrgLimited(n, orgLimit) else if g >= globalLimit then GlobalLimited(g) else Admitted
    ensures Leaves(OrgScores(before, org), OrgScores(after, org), cutoff, e, ts, outcome.Admitted?)
    ensures Leaves(before.global.scores, after.global.scores, cutoff, e, ts, outcome.Admitted?)
    ensures org !in after.locks && forall o | o != org :: OrgScores(after, o) == OrgScores(before, o)
  {
    hide Leaves;
    hide Verdict;
    hide Tracked;
    hide Fresh;
    ScoresAre(before, org);
    ScoresAre(after, org);
    VerdictIs(OrgZset(before, org), before.global, cutoff, orgLimit, globalLimit);
    TrackedLeaves(OrgZset(before, org), cutoff, e, ts, outcome);
    TrackedLeaves(before.global, cutoff, e, ts, outcome);
    forall o | o != org ensures OrgScores(after, o) == OrgScores(before, o) {
      ScoresAre(before, o);
      ScoresAre(after, o);
      assert OrgZset(after, o) == OrgZset(before, o);
    }
  }
}
