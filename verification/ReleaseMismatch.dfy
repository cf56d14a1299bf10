/** What a release under another key than the acquiring organization's does to the runs after it. */
module ReleaseMismatch {
  import opened RedisZset
  import opened RateLimitProtocol
  import opened RateLimitSafety
  import opened RateLimitTightness

  lemma {:induction false} StampsHold(cfg: Config, tr: seq<State>, acts: seq<Action>, i: nat)
    requires IsRun(cfg, tr, acts) && i < |tr|
    ensures Stamps(cfg, tr[i])
  {
    hide Stamps;
    hide Step;
    hide Enabled;
    if i == 0 {
      NoStampsYet(cfg, tr[0]);
    } else {
      StampsHold(cfg, tr, acts, i - 1);
      assert tr[i - 1 + 1] == Step(cfg, tr[i - 1], acts[i - 1]);
      StampsStep(cfg, tr[i - 1], acts[i - 1]);
    }
  }

  lemma NoStampsYet(cfg: Config, s: State)
    requires Initial(s)
    ensures Stamps(cfg, s)
  {
  }

  /** The call will not add itself any more. */
  predicate IsPastAdd(p: Phase) { p.Leaving? || p.Finished? || p.Dead? }

  /** The organization still pays for an execution that the global ZSET has forgotten. */
  ghost predicate Charged(cfg: Config, s: State, o: OrgId, e: ExecId) {
    && e in s.calls && s.calls[e].org == o && IsPastAdd(s.calls[e].phase)
    && e !in s.global.scores && (Young(cfg, s, e) ==> HasSlot(s, e))
  }

  lemma PastAddStays(cfg: Config, s: State, a: Action, e: ExecId)
    requires Enabled(cfg, s, a) && e in s.calls && IsPastAdd(s.calls[e].phase)
    ensures
      var t := Step(cfg, s, a);
      && a != Add(e) && e in t.calls && IsPastAdd(t.calls[e].phase)
      && t.calls[e].org == s.calls[e].org && t.calls[e].ts == s.calls[e].ts && s.now <= t.now
      && (e !in s.global.scores ==> e !in t.global.scores)
  {
  }

  lemma OtherKeyKeepsSlot(cfg: Config, s: State, key: OrgId, e: ExecId)
    requires e in s.calls && key != s.calls[e].org
    ensures
      var t := Step(cfg, s, ReleaseSlot(key, e));
      t.calls == s.calls && HasSlot(t, e) == HasSlot(s, e) && e !in t.global.scores
  {
  }

  lemma ChargedStep(cfg: Config, s: State, a: Action, o: OrgId, e: ExecId)
    requires Enabled(cfg, s, a) && Stamps(cfg, s) && Charged(cfg, s, o, e) && a != ReleaseSlot(o, e)
    ensures Charged(cfg, Step(cfg, s, a), o, e)
  {
    PastAddStays(cfg, s, a, e);
    hide Stamps;
    hide Step;
    hide Enabled;
    hide HasSlot;
    if Young(cfg, Step(cfg, s, a), e) {
      if a.ReleaseSlot? && a.e == e {
        OtherKeyKeepsSlot(cfg, s, a.key, e);
      } else {
        YoungSlotSurvives(cfg, s, a, e);
      }
    }
  }

  lemma {:induction false} ChargedHolds(cfg: Config, tr: seq<State>, acts: seq<Action>, i: nat, j: nat,
                                      o: OrgId, e: ExecId)
    requires IsRun(cfg, tr, acts) && i <= j < |tr| && Charged(cfg, tr[i], o, e)
    requires forall k | i <= k < j :: acts[k] != ReleaseSlot(o, e)
    ensures Charged(cfg, tr[j], o, e)
    decreases j
  {
    hide Step;
    hide Enabled;
    hide Charged;
    if i < j {
      ChargedHolds(cfg, tr, acts, i, j - 1, o, e);
      StampsHold(cfg, tr, acts, j - 1);
      assert tr[j - 1 + 1] == Step(cfg, tr[j - 1], acts[j - 1]);
      ChargedStep(cfg, tr[j - 1], acts[j - 1], o, e);
    }
  }

  /** Once a call that has added itself is released under another key, its organization goes on being
      charged for it for as long as the entry is young and nobody releases it under the right key,
      and all that time the two ZSETs disagree. */
  lemma MismatchedReleaseCharges(cfg: Config, tr: seq<State>, acts: seq<Action>, i: nat, j: nat, e: ExecId, key: OrgId)
    requires IsRun(cfg, tr, acts) && i < j < |tr| && acts[i] == ReleaseSlot(key, e)
    requires e in tr[i].calls && tr[i].calls[e].org != key && IsPastAdd(tr[i].calls[e].phase) && HasSlot(tr[i], e)
    requires forall k | i < k < j :: acts[k] != ReleaseSlot(tr[i].calls[e].org, e)
    requires e in tr[j].calls && Young(cfg, tr[j], e)
    ensures HasSlot(tr[j], e) && e !in tr[j].global.scores && !Coherent(cfg, tr[j])
  {
    assert tr[i + 1] == Step(cfg, tr[i], acts[i]);
    OtherKeyKeepsSlot(cfg, tr[i], key, e);
    hide Step;
    hide Enabled;
    hide HasSlot;
    ChargedHolds(cfg, tr, acts, i + 1, j, tr[i].calls[e].org, e);
  }

  /** Such a release is reached: one call is admitted and leaves, and is released under another key. */
  lemma MismatchedReleaseHappens(cfg: Config, o: OrgId, key: OrgId) returns (s: State)
    requires cfg.ttl > 0 && cfg.lockTimeout >= 0 && cfg.globalLimit >= 1 && key != o
    ensures Reachable(cfg, s, 1) && 0 in s.calls && s.calls[0].org == o && s.calls[0].phase.Finished?
    ensures HasSlot(s, 0) && 0 !in s.global.scores && !Coherent(cfg, s)
  {
    var t := ServeMany(cfg, o, 1, 0, 1, 1);
    OneServed(cfg, t, o);
    OtherKeyKeepsSlot(cfg, t, key, 0);
    s := Step(cfg, t, ReleaseSlot(key, 0));
    assert Sections(s) == Sections(t);
    Extend(cfg, t, ReleaseSlot(key, 0), s, 1);
  }

  lemma OneServed(cfg: Config, t: State, o: OrgId)
    requires cfg.ttl > 0 && Reachable(cfg, t, 1) && Paused(t, o, 1, 0, 1, 0)
    ensures 0 in t.calls && t.calls[0].org == o && t.calls[0].phase.Finished? && HasSlot(t, 0) && Young(cfg, t, 0)
    ensures |Sections(t)| <= 1
  {
    PausedSections(t, o, 1, 0, 1, 0);
    assert 0 in t.calls && PausedCall(t.calls[0], 0, o, 1, 0, 0);
    var x :| x in t.global.scores;
    assert x == 0 && t.global.scores[0] == t.now;
    var tr: seq<State>, acts: seq<Action> :|
      && IsRun(cfg, tr, acts)
      && tr[|tr| - 1] == t
      && forall j | 0 <= j < |tr| :: |Sections(tr[j])| <= 1;
    StampsHold(cfg, tr, acts, |tr| - 1);
  }
}
