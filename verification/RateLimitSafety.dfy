/** Safety of the rate limiter over every run. */
module RateLimitSafety {
  import opened RedisZset
  import opened RateLimitProtocol

  function Max(a: int, b: int): int { if a >= b then a else b }

  // ---------------------------------------------------------------- global limit

  /** The global ZSET plus the calls that are about to add to it. */
  predicate WithinGlobalBudget(cfg: Config, s: State, k: nat) {
    ZCard(s.global) + |Pending(s)| <= Max(0, cfg.globalLimit + k - 1)
  }

  /** Only a call passing the global check enters `Pending`, and adding leaves it. */
  lemma StepPending(cfg: Config, s: State, a: Action)
    requires Enabled(cfg, s, a)
    ensures a.CheckGlobal? && ZCard(s.global) < cfg.globalLimit ==> Pending(Step(cfg, s, a)) <= Pending(s) + {a.e}
    ensures a.Add? ==> Pending(Step(cfg, s, a)) <= Pending(s) - {a.e} && a.e in Pending(s)
    ensures !(a.CheckGlobal? && ZCard(s.global) < cfg.globalLimit) ==> Pending(Step(cfg, s, a)) <= Pending(s)
  {
    assert a.Add? ==> a.e in Pending(s);
    hide Step;
    hide Enabled;
    forall e | e in Pending(Step(cfg, s, a))
      ensures e in Pending(s) || (a == CheckGlobal(e) && ZCard(s.global) < cfg.globalLimit)
      ensures a != Add(e)
    {
      StepOnePending(cfg, s, a, e);
    }
  }

  lemma StepOnePending(cfg: Config, s: State, a: Action, e: ExecId)
    requires Enabled(cfg, s, a)
    requires e in Step(cfg, s, a).calls && Step(cfg, s, a).calls[e].phase.Cleared?
    ensures a != Add(e)
    ensures (e in s.calls && s.calls[e].phase.Cleared?) || (a == CheckGlobal(e) && ZCard(s.global) < cfg.globalLimit)
  {
  }

  lemma StepOneGlobal(cfg: Config, s: State, a: Action)
    requires Enabled(cfg, s, a)
    ensures
      var z, z' := s.global, Step(cfg, s, a).global;
      z'.scores.Keys <= z.scores.Keys || (a.Add? && z'.scores.Keys == z.scores.Keys + {a.e})
  {
    if a.Add? {
      assert Step(cfg, s, a).global.scores.Keys == s.global.scores.Keys + {a.e};
    }
  }

  /** Only `Add` grows the global ZSET. */
  lemma StepGlobalSize(cfg: Config, s: State, a: Action)
    requires Enabled(cfg, s, a)
    ensures ZCard(Step(cfg, s, a).global) <= ZCard(s.global) + if a.Add? then 1 else 0
  {
    hide Step;
    StepOneGlobal(cfg, s, a);
    var z, z' := s.global, Step(cfg, s, a).global;
    if z'.scores.Keys <= z.scores.Keys {
      CardSubset(z'.scores.Keys, z.scores.Keys);
    }
  }

  lemma GlobalBudgetStep(cfg: Config, s: State, a: Action, k: nat)
    requires Enabled(cfg, s, a)
    requires WithinGlobalBudget(cfg, s, k)
    requires |Sections(Step(cfg, s, a))| <= k
    ensures WithinGlobalBudget(cfg, Step(cfg, s, a), k)
  {
    var t := Step(cfg, s, a);
    StepPending(cfg, s, a);
    StepGlobalSize(cfg, s, a);
    if a.Add? {
      CardSubset(Pending(t), Pending(s) - {a.e});
    } else if a.CheckGlobal? && ZCard(s.global) < cfg.globalLimit {
      CardSubset(Pending(t), Sections(t));
    } else {
      CardSubset(Pending(t), Pending(s));
    }
  }

  /** In every run in which at most `k` calls are inside their critical sections at once,
      the global ZSET overshoots the global limit by at most `k - 1`, and that still counts
      the calls that have passed the check and will add. */
  lemma {:induction false} GlobalOvershoot(cfg: Config, tr: seq<State>, acts: seq<Action>, k: nat, i: nat)
    requires IsRun(cfg, tr, acts)
    requires forall j | 0 <= j < |tr| :: |Sections(tr[j])| <= k
    requires i < |tr|
    ensures WithinGlobalBudget(cfg, tr[i], k)
    ensures ZCard(tr[i].global) <= Max(0, cfg.globalLimit + k - 1)
  {
    if i == 0 {
      assert Pending(tr[0]) == {};
    } else {
      GlobalOvershoot(cfg, tr, acts, k, i - 1);
      assert tr[i - 1 + 1] == Step(cfg, tr[i - 1], acts[i - 1]);
      GlobalBudgetStep(cfg, tr[i - 1], acts[i - 1], k);
    }
  }

  // ---------------------------------------------------------------- organization limit

  /** The calls of one organization that believe they hold its lock. */
  function OrgSections(s: State, o: OrgId): set<ExecId> {
    set e | e in Sections(s) && s.calls[e].org == o
  }

  /** `m` bounds every limit under which a call of organization `o` was admitted. */
  predicate BoundsGrants(s: State, o: OrgId, m: int) {
    m >= 0 && forall e | e in s.calls && s.calls[e].org == o :: s.calls[e].granted <= m
  }

  /** The call may still add itself under a limit of `m` or less. */
  predicate MayAdd(p: Phase, m: int) {
    match p
    case Counted(n) => n < m
    case OrgPassed(limit) => limit <= m
    case Cleared(limit) => limit <= m
    case _ => false
  }

  function Takers(s: State, o: OrgId, m: int): set<ExecId> {
    set e | e in s.calls && s.calls[e].org == o && MayAdd(s.calls[e].phase, m)
  }

  /** The organization's ZSET plus its calls that may still add to it. */
  predicate WithinOrgBudget(s: State, o: OrgId, m: int, k: nat) {
    ZCard(OrgZset(s, o)) + |Takers(s, o, m)| <= Max(0, m + k - 1)
  }

  /** What a step can do to an org's ZSET. */
  lemma StepOneOrg(cfg: Config, s: State, a: Action, o: OrgId)
    requires Enabled(cfg, s, a)
    ensures
      var z, z' := OrgZset(s, o), OrgZset(Step(cfg, s, a), o);
      || z'.scores.Keys <= z.scores.Keys
      || (a.Add? && s.calls[a.e].org == o && z'.scores.Keys == z.scores.Keys + {a.e})
  {
    if a.Add? && s.calls[a.e].org == o {
      assert OrgZset(Step(cfg, s, a), o).scores.Keys == OrgZset(s, o).scores.Keys + {a.e};
    }
  }

  /** No step but `Add` grows an org's ZSET, and `Add` grows it by one at most. */
  lemma StepOrgSize(cfg: Config, s: State, a: Action, o: OrgId)
    requires Enabled(cfg, s, a)
    ensures !(a.Add? && s.calls[a.e].org == o) ==> ZCard(OrgZset(Step(cfg, s, a), o)) <= ZCard(OrgZset(s, o))
    ensures ZCard(OrgZset(Step(cfg, s, a), o)) <= ZCard(OrgZset(s, o)) + 1
  {
    hide Step;
    StepOneOrg(cfg, s, a, o);
    var z, z' := OrgZset(s, o), OrgZset(Step(cfg, s, a), o);
    if z'.scores.Keys <= z.scores.Keys {
      CardSubset(z'.scores.Keys, z.scores.Keys);
    }
  }

  predicate Counts(s: State, a: Action, o: OrgId) {
    a.CountOrg? && a.e in s.calls && s.calls[a.e].org == o
  }

  predicate AddsTo(s: State, a: Action, o: OrgId) {
    a.Add? && a.e in s.calls && s.calls[a.e].org == o
  }

  /** Only a call that counts fewer than `m` entries joins the takers, and adding leaves them. */
  lemma StepTakers(cfg: Config, s: State, a: Action, o: OrgId, m: int)
    requires Enabled(cfg, s, a)
    requires BoundsGrants(Step(cfg, s, a), o, m)
    ensures
      var t := Takers(Step(cfg, s, a), o, m);
      if AddsTo(s, a, o) then t <= Takers(s, o, m) - {a.e} && a.e in Takers(s, o, m)
      else if Counts(s, a, o) && ZCard(OrgZset(s, o)) < m then t <= Takers(s, o, m) + {a.e}
      else t <= Takers(s, o, m)
  {
    var t := Step(cfg, s, a);
    assert a.Add? ==> t.calls[a.e].granted == s.calls[a.e].phase.limit;
    forall e | e in Takers(t, o, m) && !(Counts(s, a, o) && a.e == e)
      ensures e in Takers(s, o, m)
    {
      StaysTaker(cfg, s, a, e, m);
    }
  }

  /** Only by counting does a call become one that may add. */
  lemma StaysTaker(cfg: Config, s: State, a: Action, e: ExecId, m: int)
    requires Enabled(cfg, s, a)
    requires e in Step(cfg, s, a).calls && MayAdd(Step(cfg, s, a).calls[e].phase, m) && a != CountOrg(e)
    ensures e in s.calls && s.calls[e].org == Step(cfg, s, a).calls[e].org && MayAdd(s.calls[e].phase, m)
  {
  }

  /** Nothing is granted before admission. */
  predicate Ungranted(s: State) {
    forall e | e in s.calls && !s.calls[e].phase.Leaving? && !s.calls[e].phase.Finished? && !s.calls[e].phase.Dead? ::
      s.calls[e].granted == 0
  }

  lemma GrantsStep(cfg: Config, s: State, a: Action, o: OrgId, m: int)
    requires Enabled(cfg, s, a) && Ungranted(s)
    ensures Ungranted(Step(cfg, s, a))
    ensures BoundsGrants(Step(cfg, s, a), o, m) ==> BoundsGrants(s, o, m)
  {
    var t := Step(cfg, s, a);
    forall e | e in s.calls && s.calls[e].granted != 0
      ensures e in t.calls && t.calls[e].org == s.calls[e].org && t.calls[e].granted == s.calls[e].granted
    {
      assert !(a.Add? && a.e == e);
    }
  }

  lemma {:induction false} GrantsHold(cfg: Config, tr: seq<State>, acts: seq<Action>, i: nat)
    requires IsRun(cfg, tr, acts) && i < |tr|
    ensures Ungranted(tr[i])
  {
    if i > 0 {
      GrantsHold(cfg, tr, acts, i - 1);
      assert tr[i - 1 + 1] == Step(cfg, tr[i - 1], acts[i - 1]);
      GrantsStep(cfg, tr[i - 1], acts[i - 1], 0, 0);
    }
  }

  lemma OrgBudgetStep(cfg: Config, s: State, a: Action, o: OrgId, m: int, k: nat)
    requires Enabled(cfg, s, a)
    requires BoundsGrants(Step(cfg, s, a), o, m)
    requires WithinOrgBudget(s, o, m, k)
    requires |OrgSections(Step(cfg, s, a), o)| <= k
    ensures WithinOrgBudget(Step(cfg, s, a), o, m, k)
  {
    var t := Step(cfg, s, a);
    StepTakers(cfg, s, a, o, m);
    StepOrgSize(cfg, s, a, o);
    hide Step;
    hide Enabled;
    if AddsTo(s, a, o) {
      CardSubset(Takers(t, o, m), Takers(s, o, m) - {a.e});
    } else if Counts(s, a, o) && ZCard(OrgZset(s, o)) < m {
      CardSubset(Takers(t, o, m), OrgSections(t, o));
    } else {
      CardSubset(Takers(t, o, m), Takers(s, o, m));
    }
  }

  /** In every run in which at most `k` calls of an organization are in their sections at once,
      its ZSET exceeds the largest limit any of its calls was admitted under by at most `k - 1`,
      however the limit changes, and that still counts the calls that may yet add. */
  lemma {:induction false} OrgOvershoot(cfg: Config, tr: seq<State>, acts: seq<Action>, o: OrgId, m: int, k: nat,
                                        i: nat)
    requires IsRun(cfg, tr, acts)
    requires forall j | 0 <= j < |tr| :: |OrgSections(tr[j], o)| <= k
    requires i < |tr| && BoundsGrants(tr[i], o, m)
    ensures WithinOrgBudget(tr[i], o, m, k)
    ensures ZCard(OrgZset(tr[i], o)) <= Max(0, m + k - 1)
  {
    hide Step;
    hide Enabled;
    hide OrgSections;
    hide BoundsGrants;
    hide Ungranted;
    if i == 0 {
      assert Takers(tr[0], o, m) == {};
    } else {
      hide Takers;
      assert tr[i - 1 + 1] == Step(cfg, tr[i - 1], acts[i - 1]);
      GrantsHold(cfg, tr, acts, i - 1);
      GrantsStep(cfg, tr[i - 1], acts[i - 1], o, m);
      OrgOvershoot(cfg, tr, acts, o, m, k, i - 1);
      OrgBudgetStep(cfg, tr[i - 1], acts[i - 1], o, m, k);
    }
  }

  // ---------------------------------------------------------------- mutual exclusion

  /** No call inside its section has outlived the lease it took. */
  predicate Timely(s: State) {
    forall e | e in s.calls && InSection(s.calls[e].phase) :: s.now < s.calls[e].lease
  }

  /** The call owns its org's lock. */
  predicate Guarded(s: State, e: ExecId, c: Call) {
    c.org in s.locks && s.locks[c.org] == Lock(e, c.lease)
  }

  predicate OrgGuarded(s: State) {
    forall e | e in s.calls && InSection(s.calls[e].phase) :: Guarded(s, e, s.calls[e])
  }

  /** A call in its section was there before, under the same lease, or has just taken the lock. */
  lemma StepSection(cfg: Config, s: State, a: Action, e: ExecId)
    requires Enabled(cfg, s, a)
    requires e in Step(cfg, s, a).calls && InSection(Step(cfg, s, a).calls[e].phase)
    ensures e in s.calls && Step(cfg, s, a).calls[e].org == s.calls[e].org
    ensures a == AcquireLock(e) || (InSection(s.calls[e].phase) && Step(cfg, s, a).calls[e].lease == s.calls[e].lease)
    ensures a != Unlock(e)
  {
  }

  /** The lock of a timely holder is not free, so nobody else can take it. */
  lemma StepKeepsLock(cfg: Config, s: State, a: Action, o: OrgId, e: ExecId)
    requires Enabled(cfg, s, a)
    requires o in s.locks && s.locks[o].holder == e && s.now < s.locks[o].until
    requires a != Unlock(e)
    ensures o in Step(cfg, s, a).locks && Step(cfg, s, a).locks[o] == s.locks[o]
  {
  }

  lemma OrgGuardedStep(cfg: Config, s: State, a: Action)
    requires Enabled(cfg, s, a)
    requires Timely(s) && OrgGuarded(s)
    ensures OrgGuarded(Step(cfg, s, a))
  {
    var t := Step(cfg, s, a);
    forall e | e in t.calls && InSection(t.calls[e].phase)
      ensures Guarded(t, e, t.calls[e])
    {
      StepSection(cfg, s, a, e);
      if a != AcquireLock(e) {
        assert Guarded(s, e, s.calls[e]);
        StepKeepsLock(cfg, s, a, s.calls[e].org, e);
      }
    }
  }

  /** As long as no lock holder outlives its lease, an organization's calls exclude each other. */
  lemma {:induction false} TimelyCallsExclude(cfg: Config, tr: seq<State>, acts: seq<Action>, i: nat)
    requires IsRun(cfg, tr, acts) && i < |tr|
    requires forall j | 0 <= j < i :: Timely(tr[j])
    ensures OrgGuarded(tr[i])
    ensures forall o :: |OrgSections(tr[i], o)| <= 1
  {
    if i > 0 {
      TimelyCallsExclude(cfg, tr, acts, i - 1);
      assert tr[i - 1 + 1] == Step(cfg, tr[i - 1], acts[i - 1]);
      OrgGuardedStep(cfg, tr[i - 1], acts[i - 1]);
    }
    forall o
      ensures |OrgSections(tr[i], o)| <= 1
    {
      AtMostOneHolder(tr[i], o);
    }
  }

  lemma AtMostOneHolder(s: State, o: OrgId)
    requires OrgGuarded(s)
    ensures |OrgSections(s, o)| <= 1
  {
    var mine := OrgSections(s, o);
    forall e, f | e in mine && f in mine
      ensures e == f
    {
      assert Guarded(s, e, s.calls[e]) && Guarded(s, f, s.calls[f]);
    }
    if e :| e in mine {
      assert mine == {e};
    }
  }

  /** In every run in which no lock holder outlives its lease, an org's ZSET never holds more
      entries than the largest limit any admitted call of that org was checked against,
      however the limit changes, and at most one call per org is in its section. */
  lemma OrgLimitHolds(cfg: Config, tr: seq<State>, acts: seq<Action>, i: nat)
    requires IsRun(cfg, tr, acts)
    requires forall j | 0 <= j < |tr| :: Timely(tr[j])
    requires i < |tr|
    ensures forall o, m | BoundsGrants(tr[i], o, m) :: ZCard(OrgZset(tr[i], o)) <= m
    ensures forall e, f | e in Sections(tr[i]) && f in Sections(tr[i]) &&
      tr[i].calls[e].org == tr[i].calls[f].org :: e == f
  {
    TimelyCallsExclude(cfg, tr, acts, i);
    forall o, m | BoundsGrants(tr[i], o, m)
      ensures ZCard(OrgZset(tr[i], o)) <= m
    {
      forall j | 0 <= j < |tr|
        ensures |OrgSections(tr[j], o)| <= 1
      {
        TimelyCallsExclude(cfg, tr, acts, j);
      }
      OrgOvershoot(cfg, tr, acts, o, m, 1, i);
    }
    forall e, f | e in Sections(tr[i]) && f in Sections(tr[i]) && tr[i].calls[e].org == tr[i].calls[f].org
      ensures e == f
    {
      assert Guarded(tr[i], e, tr[i].calls[e]) && Guarded(tr[i], f, tr[i].calls[f]);
    }
  }

  lemma {:induction false} InjectiveImage(s: State, es: set<ExecId>, orgs: set<OrgId>)
    requires forall e | e in es :: e in s.calls && s.calls[e].org in orgs
    requires forall e, f | e in es && f in es && s.calls[e].org == s.calls[f].org :: e == f
    ensures |es| <= |orgs|
    decreases es
  {
    if es == {} {
    } else {
      var e :| e in es;
      InjectiveImage(s, es - {e}, orgs - {s.calls[e].org});
    }
  }

  /** Per-org locks bound the concurrency: with `orgs` the organizations that ever call, and
      timely holders, the global ZSET never exceeds the limit by `|orgs|` or more, and never
      exceeds it at all when one organization calls. */
  lemma GlobalOvershootByOrgs(cfg: Config, tr: seq<State>, acts: seq<Action>, orgs: set<OrgId>, i: nat)
    requires IsRun(cfg, tr, acts)
    requires forall j | 0 <= j < |tr| :: Timely(tr[j])
    requires forall j, e | 0 <= j < |tr| && e in tr[j].calls :: tr[j].calls[e].org in orgs
    requires i < |tr|
    ensures ZCard(tr[i].global) <= Max(0, cfg.globalLimit + |orgs| - 1)
  {
    forall j | 0 <= j < |tr|
      ensures |Sections(tr[j])| <= |orgs|
    {
      OrgLimitHolds(cfg, tr, acts, j);
      InjectiveImage(tr[j], Sections(tr[j]), orgs);
    }
    GlobalOvershoot(cfg, tr, acts, |orgs|, i);
  }

  // ---------------------------------------------------------------- coherence of the two ZSETs

  /** Younger than the TTL. */
  predicate Young(cfg: Config, s: State, e: ExecId)
    requires e in s.calls
  {
    s.now < s.calls[e].ts + cfg.ttl
  }

  predicate HasSlot(s: State, e: ExecId)
    requires e in s.calls
  {
    e in OrgZset(s, s.calls[e].org).scores
  }

  /** Entries carry their call's stamp, and a key outlives its young entries. */
  predicate StampedZset(cfg: Config, calls: map<ExecId, Call>, z: Zset) {
    forall e | e in z.scores ::
      && e in calls
      && z.scores[e] == calls[e].ts
      && calls[e].ts + cfg.ttl <= z.expireAt
  }

  predicate OwnEntries(calls: map<ExecId, Call>, o: OrgId, z: Zset) {
    forall e | e in z.scores :: e in calls && calls[e].org == o
  }

  /** Stamps are not in the future and cutoffs are at least a TTL old. */
  predicate PastClocks(cfg: Config, s: State) {
    && (forall e | e in s.calls :: s.calls[e].ts <= s.now)
    && (forall e | e in s.calls && !s.calls[e].phase.Stamped? && !s.calls[e].phase.Dead? ::
          s.calls[e].cutoff <= s.now - cfg.ttl)
  }

  predicate Stamps(cfg: Config, s: State) {
    && (forall o | o in s.orgs :: StampedZset(cfg, s.calls, s.orgs[o]) && OwnEntries(s.calls, o, s.orgs[o]))
    && StampedZset(cfg, s.calls, s.global)
    && PastClocks(cfg, s)
  }

  /** Every young entry is in its organization's ZSET exactly when it is in the global one. */
  predicate Coherent(cfg: Config, s: State) {
    forall e | e in s.calls && Young(cfg, s, e) :: HasSlot(s, e) <==> e in s.global.scores
  }

  /** The release uses the identifier the slot was acquired under. */
  predicate ProperRelease(s: State, a: Action) {
    a.ReleaseSlot? && a.e in s.calls ==> s.calls[a.e].org == a.key
  }

  /** Calls keep their organization and stamp for ever. */
  predicate CallsPersist(calls: map<ExecId, Call>, later: map<ExecId, Call>) {
    forall e | e in calls :: e in later && later[e].org == calls[e].org && later[e].ts == calls[e].ts
  }

  /** The clocks of one call are in the past. */
  predicate PastClock(cfg: Config, c: Call, now: Time) {
    c.ts <= now && (c.phase.Stamped? || c.phase.Dead? || c.cutoff <= now - cfg.ttl)
  }

  lemma StepOneCall(cfg: Config, s: State, a: Action, e: ExecId)
    requires Enabled(cfg, s, a)
    requires e in s.calls ==> PastClock(cfg, s.calls[e], s.now)
    ensures var t := Step(cfg, s, a); e in s.calls ==>
      e in t.calls && t.calls[e].org == s.calls[e].org && t.calls[e].ts == s.calls[e].ts
    ensures var t := Step(cfg, s, a); e in t.calls ==> PastClock(cfg, t.calls[e], t.now)
  {
  }

  lemma StepKeepsCalls(cfg: Config, s: State, a: Action)
    requires Enabled(cfg, s, a)
    requires PastClocks(cfg, s)
    ensures CallsPersist(s.calls, Step(cfg, s, a).calls)
    ensures PastClocks(cfg, Step(cfg, s, a))
  {
    hide Step;
    hide Enabled;
    var t := Step(cfg, s, a);
    forall e
      ensures e in s.calls ==> e in t.calls && t.calls[e].org == s.calls[e].org && t.calls[e].ts == s.calls[e].ts
      ensures e in t.calls ==> PastClock(cfg, t.calls[e], t.now)
    {
      StepOneCall(cfg, s, a, e);
    }
  }

  lemma StepStampsGlobal(cfg: Config, s: State, a: Action)
    requires Enabled(cfg, s, a)
    requires PastClocks(cfg, s) && StampedZset(cfg, s.calls, s.global)
    ensures StampedZset(cfg, Step(cfg, s, a).calls, Step(cfg, s, a).global)
  {
    StepKeepsCalls(cfg, s, a);
  }

  /** An entry of an org's ZSET after a step was there before, under the same deadline or a later
      one, or has just been added. */
  lemma StepOneEntry(cfg: Config, s: State, a: Action, o: OrgId, e: ExecId)
    requires Enabled(cfg, s, a) && e in OrgZset(Step(cfg, s, a), o).scores
    ensures
      var z, z' := OrgZset(s, o), OrgZset(Step(cfg, s, a), o);
      || (e in z.scores && z'.scores[e] == z.scores[e] && (z'.expireAt == z.expireAt || z'.expireAt == s.now + cfg.ttl))
      || (a == Add(e) && s.calls[e].org == o && z'.scores[e] == s.calls[e].ts && z'.expireAt == s.now + cfg.ttl)
  {
  }

  lemma StepStampsOrg(cfg: Config, s: State, a: Action, o: OrgId)
    requires Enabled(cfg, s, a)
    requires PastClocks(cfg, s)
    requires StampedZset(cfg, s.calls, OrgZset(s, o)) && OwnEntries(s.calls, o, OrgZset(s, o))
    ensures StampedZset(cfg, Step(cfg, s, a).calls, OrgZset(Step(cfg, s, a), o))
    ensures OwnEntries(Step(cfg, s, a).calls, o, OrgZset(Step(cfg, s, a), o))
  {
    StepKeepsCalls(cfg, s, a);
    assert forall e | a == Add(e) :: e in s.calls;
    hide Step;
    hide Enabled;
    var t := Step(cfg, s, a);
    forall e | e in OrgZset(t, o).scores
      ensures e in t.calls && OrgZset(t, o).scores[e] == t.calls[e].ts && t.calls[e].org == o
      ensures t.calls[e].ts + cfg.ttl <= OrgZset(t, o).expireAt
    {
      StepOneEntry(cfg, s, a, o, e);
    }
  }

  lemma StampsStep(cfg: Config, s: State, a: Action)
    requires Enabled(cfg, s, a)
    requires Stamps(cfg, s)
    ensures Stamps(cfg, Step(cfg, s, a))
  {
    var t := Step(cfg, s, a);
    StepKeepsCalls(cfg, s, a);
    StepStampsGlobal(cfg, s, a);
    forall o | o in t.orgs
      ensures StampedZset(cfg, t.calls, t.orgs[o]) && OwnEntries(t.calls, o, t.orgs[o])
    {
      StepStampsOrg(cfg, s, a, o);
    }
  }

  lemma CoherentStep(cfg: Config, s: State, a: Action, e: ExecId)
    requires Enabled(cfg, s, a) && ProperRelease(s, a)
    requires Stamps(cfg, s) && Coherent(cfg, s)
    requires e in Step(cfg, s, a).calls && Young(cfg, Step(cfg, s, a), e)
    ensures HasSlot(Step(cfg, s, a), e) <==> e in Step(cfg, s, a).global.scores
  {
    if e in s.calls {
      assert Young(cfg, s, e);
      assert HasSlot(s, e) <==> e in s.global.scores;
      if !(a.ReleaseSlot? && a.e == e) {
        YoungSlotSurvives(cfg, s, a, e);
      }
    }
  }

  /** In every run whose releases use the acquiring organization's identifier, a young entry
      is in its org ZSET iff it is in the global ZSET: neither whole-key expiry nor a cleanup
      with another organization's older cutoff ever drops one side only. */
  lemma {:induction false} ZsetsAgree(cfg: Config, tr: seq<State>, acts: seq<Action>, i: nat)
    requires IsRun(cfg, tr, acts)
    requires forall j | 0 <= j < |acts| :: ProperRelease(tr[j], acts[j])
    requires i < |tr|
    ensures Stamps(cfg, tr[i]) && Coherent(cfg, tr[i])
  {
    if i == 0 {
    } else {
      ZsetsAgree(cfg, tr, acts, i - 1);
      assert tr[i - 1 + 1] == Step(cfg, tr[i - 1], acts[i - 1]);
      StampsStep(cfg, tr[i - 1], acts[i - 1]);
      forall e | e in tr[i].calls && Young(cfg, tr[i], e)
        ensures HasSlot(tr[i], e) <==> e in tr[i].global.scores
      {
        CoherentStep(cfg, tr[i - 1], acts[i - 1], e);
      }
    }
  }

  /** What is known of one entry: its stamp, and that its key outlives it. */
  predicate Stamped1(cfg: Config, z: Zset, e: ExecId, ts: Time) {
    e in z.scores ==> z.scores[e] == ts && ts + cfg.ttl <= z.expireAt
  }

  /** The cutoff of a cleanup in progress is at least a TTL old. */
  predicate OldCutoff(cfg: Config, s: State, a: Action) {
    (a.CleanOrg? || a.CleanGlobal?) && a.e in s.calls ==> s.calls[a.e].cutoff <= s.now - cfg.ttl
  }

  lemma YoungSlotInOrg(cfg: Config, s: State, a: Action, e: ExecId)
    requires Enabled(cfg, s, a) && OldCutoff(cfg, s, a)
    requires e in s.calls && e in Step(cfg, s, a).calls && Young(cfg, Step(cfg, s, a), e)
    requires Stamped1(cfg, OrgZset(s, s.calls[e].org), e, s.calls[e].ts) && !(a.ReleaseSlot? && a.e == e)
    ensures if a == Add(e) then HasSlot(Step(cfg, s, a), e) else HasSlot(Step(cfg, s, a), e) == HasSlot(s, e)
  {
  }

  lemma YoungSlotInGlobal(cfg: Config, s: State, a: Action, e: ExecId)
    requires Enabled(cfg, s, a) && OldCutoff(cfg, s, a)
    requires e in s.calls && e in Step(cfg, s, a).calls && Young(cfg, Step(cfg, s, a), e)
    requires Stamped1(cfg, s.global, e, s.calls[e].ts) && !(a.ReleaseSlot? && a.e == e)
    ensures
      var t := Step(cfg, s, a);
      if a == Add(e) then e in t.global.scores else (e in t.global.scores) == (e in s.global.scores)
  {
  }

  lemma StampsAt(cfg: Config, s: State, a: Action, e: ExecId)
    requires Enabled(cfg, s, a) && Stamps(cfg, s) && e in s.calls
    ensures Stamped1(cfg, OrgZset(s, s.calls[e].org), e, s.calls[e].ts) && Stamped1(cfg, s.global, e, s.calls[e].ts)
    ensures OldCutoff(cfg, s, a)
  {
  }

  /** A young slot appears only by its own call's `Add` and disappears only by a release of
      that very execution: no cleanup, expiry, crash or admission of another call touches it. */
  lemma YoungSlotSurvives(cfg: Config, s: State, a: Action, e: ExecId)
    requires Enabled(cfg, s, a)
    requires Stamps(cfg, s)
    requires e in s.calls && Young(cfg, Step(cfg, s, a), e)
    requires !(a.ReleaseSlot? && a.e == e)
    ensures a != Add(e) ==> HasSlot(Step(cfg, s, a), e) == HasSlot(s, e)
    ensures a != Add(e) ==> (e in Step(cfg, s, a).global.scores) == (e in s.global.scores)
    ensures a == Add(e) ==> HasSlot(Step(cfg, s, a), e) && e in Step(cfg, s, a).global.scores
  {
    StampsAt(cfg, s, a, e);
    hide Stamps;
    hide Step;
    YoungSlotInOrg(cfg, s, a, e);
    YoungSlotInGlobal(cfg, s, a, e);
  }

  /** Releasing under another key, as a caller does that passes the organization object
      instead of its identifier, keeps the two ZSETs coherent exactly when there was no young
      slot to release. Otherwise the org goes on being charged while the global ZSET forgets
      the execution. */
  lemma MismatchedRelease(cfg: Config, s: State, key: OrgId, e: ExecId)
    requires Stamps(cfg, s) && Coherent(cfg, s)
    requires e in s.calls && key != s.calls[e].org
    ensures Coherent(cfg, Step(cfg, s, ReleaseSlot(key, e))) <==> !(Young(cfg, s, e) && HasSlot(s, e))
    ensures HasSlot(Step(cfg, s, ReleaseSlot(key, e)), e) == HasSlot(s, e)
    ensures e !in Step(cfg, s, ReleaseSlot(key, e)).global.scores
  {
    var t := Step(cfg, s, ReleaseSlot(key, e));
    assert Young(cfg, t, e) == Young(cfg, s, e);
    forall f | f in t.calls && f != e && Young(cfg, t, f)
      ensures HasSlot(t, f) <==> f in t.global.scores
    {
      assert Young(cfg, s, f);
      assert f in OrgZset(t, s.calls[f].org).scores <==> f in OrgZset(s, s.calls[f].org).scores;
    }
  }
}
