/** `APIDeploymentRateLimiter` as a protocol: any number of `check_and_acquire` calls,
    releases, usage queries, key expiries and crashes interleave, one Redis command a step.

    A call is identified by its execution id, which is unique. */
module RateLimitProtocol {
  import opened RedisZset

  type OrgId = nat

  /** `globalLimit`, `ttl` and `lockTimeout` are settings; the per-organization limit is
      read afresh by every call and may differ each time. */
  datatype Config = Config(ttl: Time, lockTimeout: Time, globalLimit: int)

  datatype Outcome =
    | Admitted
    | OrgLimited(usage: nat, orgLimit: int)
    | GlobalLimited(globalUsage: nat)
    | FailedOpen

  /** Where a call stands. From `Holding` to `Leaving` it believes it holds the org lock. */
  datatype Phase =
    | Stamped
    | Waiting
    | Holding
    | OrgCleaned
    | GlobalCleaned
    | Counted(count: nat)
    | OrgPassed(limit: int)
    | Cleared(limit: int)
    | Leaving(outcome: Outcome)
    | Finished(result: Outcome)
    | Dead

  /** `granted` is the org limit the call was admitted under, 0 before admission. */
  datatype Call = Call(org: OrgId, ts: Time, cutoff: Time, lease: Time, granted: int, phase: Phase)

  datatype Lock = Lock(holder: ExecId, until: Time)

  datatype State = State(
    now: Time,
    orgs: map<OrgId, Zset>,
    global: Zset,
    locks: map<OrgId, Lock>,
    calls: map<ExecId, Call>)

  datatype Action =
    | Tick(d: nat)
    | Begin(e: ExecId, org: OrgId)
    | ReadCutoff(e: ExecId)
    | AcquireLock(e: ExecId)
    | GiveUp(e: ExecId)
    | CleanOrg(e: ExecId)
    | CleanGlobal(e: ExecId)
    | CountOrg(e: ExecId)
    | CheckOrg(e: ExecId, orgLimit: int)
    | CheckGlobal(e: ExecId)
    | Add(e: ExecId)
    | Fail(e: ExecId)
    | Unlock(e: ExecId)
    | Crash(e: ExecId)
    | ReleaseSlot(key: OrgId, e: ExecId)
    | UsageCleanOrg(org: OrgId, cutoff: Time)
    | UsageCleanGlobal(cutoff: Time)
    | ExpireOrg(org: OrgId)
    | ExpireGlobal

  function OrgZset(s: State, o: OrgId): Zset {
    if o in s.orgs then s.orgs[o] else ABSENT
  }

  predicate InSection(p: Phase) {
    p.Holding? || p.OrgCleaned? || p.GlobalCleaned? || p.Counted? || p.OrgPassed? || p.Cleared? || p.Leaving?
  }

  /** The calls that believe they hold a lock. */
  function Sections(s: State): set<ExecId> {
    set e | e in s.calls && InSection(s.calls[e].phase)
  }

  /** The calls past the global check that have not added yet. */
  function Pending(s: State): set<ExecId> {
    set e | e in s.calls && s.calls[e].phase.Cleared?
  }

  predicate LockFree(s: State, o: OrgId) {
    o !in s.locks || s.locks[o].until <= s.now
  }

  predicate At(s: State, e: ExecId, p: Phase) {
    e in s.calls && s.calls[e].phase == p
  }

  predicate Enabled(cfg: Config, s: State, a: Action) {
    match a
    case Tick(_) => true
    case Begin(e, _) => e !in s.calls
    case ReadCutoff(e) => At(s, e, Stamped)
    case AcquireLock(e) => At(s, e, Waiting) && LockFree(s, s.calls[e].org)
    case GiveUp(e) => At(s, e, Waiting)
    case CleanOrg(e) => At(s, e, Holding)
    case CleanGlobal(e) => At(s, e, OrgCleaned)
    case CountOrg(e) => At(s, e, GlobalCleaned)
    case CheckOrg(e, _) => e in s.calls && s.calls[e].phase.Counted?
    case CheckGlobal(e) => e in s.calls && s.calls[e].phase.OrgPassed?
    case Add(e) => e in s.calls && s.calls[e].phase.Cleared?
    case Fail(e) => e in s.calls && InSection(s.calls[e].phase)
    case Unlock(e) => e in s.calls && s.calls[e].phase.Leaving?
    case Crash(e) => e in s.calls && !s.calls[e].phase.Finished?
    case ReleaseSlot(_, _) => true
    case UsageCleanOrg(_, cutoff) => cutoff <= s.now - cfg.ttl
    case UsageCleanGlobal(cutoff) => cutoff <= s.now - cfg.ttl
    case ExpireOrg(o) => o in s.orgs && s.orgs[o].expireAt <= s.now
    case ExpireGlobal => s.global.expireAt <= s.now
  }

  function Goto(s: State, e: ExecId, p: Phase): State
    requires e in s.calls
  {
    s.(calls := s.calls[e := s.calls[e].(phase := p)])
  }

  function SetOrg(s: State, o: OrgId, z: Zset): State {
    s.(orgs := s.orgs[o := z])
  }

  function Step(cfg: Config, s: State, a: Action): State
    requires Enabled(cfg, s, a)
  {
    match a
    case Tick(d) => s.(now := s.now + d)
    case Begin(e, o) => s.(calls := s.calls[e := Call(o, s.now, s.now, s.now, 0, Stamped)])
    case ReadCutoff(e) =>
      s.(calls := s.calls[e := s.calls[e].(cutoff := s.now - cfg.ttl, phase := Waiting)])
    case AcquireLock(e) =>
      var c := s.calls[e];
      var until := s.now + cfg.lockTimeout;
      s.(locks := s.locks[c.org := Lock(e, until)],
         calls := s.calls[e := c.(lease := until, phase := Holding)])
    case GiveUp(e) => Goto(s, e, Finished(FailedOpen))
    case CleanOrg(e) =>
      var c := s.calls[e];
      SetOrg(Goto(s, e, OrgCleaned), c.org, ZRemRangeByScore(OrgZset(s, c.org), 0, c.cutoff))
    case CleanGlobal(e) =>
      Goto(s, e, GlobalCleaned).(global := ZRemRangeByScore(s.global, 0, s.calls[e].cutoff))
    case CountOrg(e) => Goto(s, e, Counted(ZCard(OrgZset(s, s.calls[e].org))))
    case CheckOrg(e, limit) =>
      var count := s.calls[e].phase.count;
      Goto(s, e, if count >= limit then Leaving(OrgLimited(count, limit)) else OrgPassed(limit))
    case CheckGlobal(e) =>
      var usage := ZCard(s.global);
      Goto(s, e, if usage >= cfg.globalLimit then Leaving(GlobalLimited(usage)) else Cleared(s.calls[e].phase.limit))
    case Add(e) =>
      var c := s.calls[e];
      s.(orgs := s.orgs[c.org := ZAddExpire(OrgZset(s, c.org), e, c.ts, s.now + cfg.ttl)],
         global := ZAddExpire(s.global, e, c.ts, s.now + cfg.ttl),
         calls := s.calls[e := c.(granted := c.phase.limit, phase := Leaving(Admitted))])
    case Fail(e) => Goto(s, e, Leaving(FailedOpen))
    case Unlock(e) =>
      var c := s.calls[e];
      var mine := c.org in s.locks && s.locks[c.org].holder == e;
      Goto(s, e, Finished(c.phase.outcome)).(locks := if mine then s.locks - {c.org} else s.locks)
    case Crash(e) => Goto(s, e, Dead)
    case ReleaseSlot(key, e) =>
      SetOrg(s, key, ZRem(OrgZset(s, key), e)).(global := ZRem(s.global, e))
    case UsageCleanOrg(o, cutoff) => SetOrg(s, o, ZRemRangeByScore(OrgZset(s, o), 0, cutoff))
    case UsageCleanGlobal(cutoff) => s.(global := ZRemRangeByScore(s.global, 0, cutoff))
    case ExpireOrg(o) => s.(orgs := s.orgs - {o})
    case ExpireGlobal => s.(global := ABSENT)
  }

  predicate Initial(s: State) {
    s.orgs == map[] && s.global == ABSENT && s.locks == map[] && s.calls == map[]
  }

  /** `tr` is the sequence of states a run visits under `acts`. */
  predicate IsRun(cfg: Config, tr: seq<State>, acts: seq<Action>) {
    && |tr| == |acts| + 1
    && Initial(tr[0])
    && (forall i | 0 <= i < |acts| :: Enabled(cfg, tr[i], acts[i]) && tr[i + 1] == Step(cfg, tr[i], acts[i]))
  }
}
