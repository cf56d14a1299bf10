/** When the aggregation lock prevents overlapping runs: exactly when workers keep to a pace. */
module AggregationOverlap {
  import opened AggregationLock

  // ---------------------------------------------------------------- the takeover race

  /** No aggregation lasts longer than `span` after its stamp. */
  predicate Paced(s: State, span: nat) {
    forall p | p in s.workers && s.workers[p].Running? :: s.now <= s.workers[p].began + span
  }

  /** No add that succeeds comes later than `lag` after its stamp. */
  predicate Prompt(s: State, a: Action, lag: nat) {
    a.Add? && a.p in s.workers && CanAdd(s.workers[a.p]) && !Live(s) ==> s.now <= s.workers[a.p].began + lag
  }

  /** A run of workers that keep to both. */
  ghost predicate IsPacedRun(tr: seq<State>, acts: seq<Action>, lag: nat, span: nat) {
    && IsRun(tr, acts)
    && (forall i | 0 <= i < |tr| :: Paced(tr[i], span))
    && (forall i | 0 <= i < |acts| :: Prompt(tr[i], acts[i], lag))
  }

  /** Something that has happened in such a run, up to now. */
  datatype Past = Past(tr: seq<State>, acts: seq<Action>)

  ghost predicate IsPast(h: Past, s0: State, s: State, lag: nat, span: nat) {
    IsPacedRun(h.tr, h.acts, lag, span) && h.tr[0] == s0 && h.tr[|h.acts|] == s
  }

  lemma NothingYet(s0: State, lag: nat, span: nat) returns (h: Past)
    requires s0.workers == map[]
    ensures IsPast(h, s0, s0, lag, span)
  {
    h := Past([s0], []);
  }

  lemma Extend(h: Past, s0: State, s: State, a: Action, lag: nat, span: nat) returns (h': Past, t: State)
    requires IsPast(h, s0, s, lag, span) && Enabled(s, a)
    requires Prompt(s, a, lag) && Paced(Step(s, a), span)
    ensures t == Step(s, a) && IsPast(h', s0, t, lag, span)
  {
    t := Step(s, a);
    h' := Past(h.tr + [t], h.acts + [a]);
    forall i | 0 <= i < |h'.acts|
      ensures Enabled(h'.tr[i], h'.acts[i]) && h'.tr[i + 1] == Step(h'.tr[i], h'.acts[i])
      ensures Prompt(h'.tr[i], h'.acts[i], lag)
    {
      if i < |h.acts| {
        assert h'.tr[i] == h.tr[i] && h'.tr[i + 1] == h.tr[i + 1] && h'.acts[i] == h.acts[i];
      }
    }
  }

  /** A worker that finds the entry in place and too old gets as far as the delete. */
  lemma ReachReclaim(h: Past, s0: State, s: State, p: Pid, lag: nat, span: nat) returns (h': Past, t: State)
    requires IsPast(h, s0, s, lag, span)
    requires p !in s.workers && Live(s) && Abandoned(s.entry.value, s.now)
    ensures t == Goto(s, p, Reclaiming(s.now)) && IsPast(h', s0, t, lag, span)
  {
    LastIsPaced(h, s0, s, lag, span);
    h', t := Extend(h, s0, s, Start(p), lag, span);
    h', t := Extend(h', s0, t, Add(p), lag, span);
    h', t := Extend(h', s0, t, Get(p), lag, span);
    assert t.workers == s.workers[p := Reclaiming(s.now)];
  }

  lemma LastIsPaced(h: Past, s0: State, s: State, lag: nat, span: nat)
    requires IsPast(h, s0, s, lag, span)
    ensures Paced(s, span)
  {
  }

  lemma TakeOver(h: Past, s0: State, s: State, p: Pid, lag: nat, span: nat) returns (h': Past, t: State)
    requires IsPast(h, s0, s, lag, span) && p in s.workers && s.workers[p] == Reclaiming(s.now)
    ensures t.now == s.now && t.workers == s.workers[p := Running(s.now)] && IsPast(h', s0, t, lag, span)
  {
    LastIsPaced(h, s0, s, lag, span);
    h', t := Extend(h, s0, s, Delete(p), lag, span);
    h', t := Extend(h', s0, t, Add(p), lag, span);
    assert t.workers == s.workers[p := Running(s.now)];
  }

  /** Neither pace helps: whenever an entry is still there and looks abandoned, two more workers can
      both take it over and run at once. */
  lemma TakeoverRace(h: Past, s0: State, s: State, p: Pid, q: Pid, lag: nat, span: nat) returns (h': Past, t: State)
    requires IsPast(h, s0, s, lag, span) && Live(s) && Abandoned(s.entry.value, s.now)
    requires p != q && p !in s.workers && q !in s.workers
    ensures IsPast(h', s0, t, lag, span) && IsRunning(t, p) && IsRunning(t, q) && !OneRuns(t)
  {
    h', t := ReachReclaim(h, s0, s, p, lag, span);
    h', t := ReachReclaim(h', s0, t, q, lag, span);
    h', t := TakeOver(h', s0, t, p, lag, span);
    h', t := TakeOver(h', s0, t, q, lag, span);
    assert IsRunning(t, p) && IsRunning(t, q);
  }

  /** Time passes while nobody is at work. */
  lemma Idle(h: Past, s0: State, s: State, d: nat, lag: nat, span: nat) returns (h': Past, t: State)
    requires IsPast(h, s0, s, lag, span) && forall p :: !IsRunning(s, p)
    ensures t == s.(now := s.now + d) && IsPast(h', s0, t, lag, span)
  {
    assert forall p | p in s.workers :: !IsRunning(s, p);
    h', t := Extend(h, s0, s, Tick(d), lag, span);
  }

  /** Such an entry comes about if an add may come two microseconds after its stamp: the worker is
      killed, and when its stamp is too old its entry still has a microsecond left. */
  lemma TooOldAndStillThere(h: Past, s0: State, s: State, p: Pid, lag: nat, span: nat) returns (h': Past, t: State)
    requires IsPast(h, s0, s, lag, span) && s.workers == map[] && !Live(s) && lag >= 2 && span >= 2
    ensures IsPast(h', s0, t, lag, span) && t.workers == map[p := Dead]
    ensures Live(t) && Abandoned(t.entry.value, t.now)
  {
    h', t := Extend(h, s0, s, Start(p), lag, span);
    h', t := Idle(h', s0, t, 2, lag, span);
    h', t := Extend(h', s0, t, Add(p), lag, span);
    h', t := Extend(h', s0, t, Kill(p), lag, span);
    h', t := Idle(h', s0, t, TIMEOUT - 1, lag, span);
  }

  /** An aggregation that may last for `TIMEOUT` after its stamp can be joined by another. */
  lemma LongRunIsJoined(h: Past, s0: State, s: State, p: Pid, q: Pid, lag: nat, span: nat) returns (h': Past, t: State)
    requires IsPast(h, s0, s, lag, span) && s.workers == map[] && !Live(s) && span >= TIMEOUT && p != q
    ensures IsPast(h', s0, t, lag, span) && !OneRuns(t)
  {
    h', t := Extend(h, s0, s, Start(p), lag, span);
    h', t := Extend(h', s0, t, Add(p), lag, span);
    h', t := Extend(h', s0, t, Tick(TIMEOUT), lag, span);
    h', t := Extend(h', s0, t, Start(q), lag, span);
    h', t := Extend(h', s0, t, Add(q), lag, span);
    assert IsRunning(t, p) && IsRunning(t, q);
  }

  // ---------------------------------------------------------------- when overlap is excluded

  /** The entry will look abandoned to somebody while it is still there. */
  predicate Reclaimable(s: State) {
    Live(s) && (s.entry.value.Unreadable? || s.entry.value.at + TIMEOUT + 1 < s.entry.until)
  }

  /** A worker has read the clock by now. */
  predicate HasBegun(s: State) {
    forall p | p in s.workers && !s.workers[p].Done? && !s.workers[p].Dead? :: s.workers[p].began <= s.now
  }

  ghost predicate NobodyReclaims(s: State) { forall p :: !MidReclaim(s, p) }

  /** With prompt adds no entry ever looks abandoned, so nobody takes over. */
  lemma NobodyReclaimsStep(s: State, a: Action, lag: nat, span: nat)
    requires Enabled(s, a) && Prompt(s, a, lag) && Paced(Step(s, a), span) && (lag <= 1 || span <= 1)
    requires NobodyReclaims(s) && HasBegun(s) && !Reclaimable(s)
    ensures NobodyReclaims(Step(s, a)) && HasBegun(Step(s, a)) && !Reclaimable(Step(s, a))
  {
    var t := Step(s, a);
    if a.Add? && !Live(s) {
      assert t.workers[a.p].Running? && t.workers[a.p].began == s.workers[a.p].began;
    }
    forall q
      ensures !MidReclaim(t, q)
    {
      if a.Tick? || q != a.p {
        OthersKeep(s, a, q);
      } else {
        assert !MidReclaim(s, q);
      }
    }
  }

  lemma {:induction false} NobodyReclaimsHolds(tr: seq<State>, acts: seq<Action>, lag: nat, span: nat, i: nat)
    requires IsPacedRun(tr, acts, lag, span) && (lag <= 1 || span <= 1) && !Reclaimable(tr[0]) && i < |tr|
    ensures NobodyReclaims(tr[i]) && HasBegun(tr[i]) && !Reclaimable(tr[i])
  {
    if i > 0 {
      NobodyReclaimsHolds(tr, acts, lag, span, i - 1);
      assert tr[i - 1 + 1] == Step(tr[i - 1], acts[i - 1]) && Paced(tr[i], span);
      NobodyReclaimsStep(tr[i - 1], acts[i - 1], lag, span);
    }
  }

  lemma PacedRunsExclude(tr: seq<State>, acts: seq<Action>, lag: nat, span: nat)
    requires IsPacedRun(tr, acts, lag, span)
    requires span < TIMEOUT && (lag <= 1 || span <= 1) && !Reclaimable(tr[0])
    ensures forall i | 0 <= i < |tr| :: OneRuns(tr[i])
  {
    forall k | 0 <= k < |acts|
      ensures Timely(tr[k]) && Undisturbed(tr[k], acts[k])
    {
      NobodyReclaimsHolds(tr, acts, lag, span, k);
    }
    MutualExclusion(tr, acts);
  }

  /** No paced run from `s0` ever has two aggregations at once. */
  ghost predicate OverlapIsExcluded(s0: State, lag: nat, span: nat) {
    forall tr, acts | IsPacedRun(tr, acts, lag, span) && tr[0] == s0 :: forall i | 0 <= i < |tr| :: OneRuns(tr[i])
  }

  lemma PastShows(h: Past, s0: State, s: State, lag: nat, span: nat)
    requires IsPast(h, s0, s, lag, span) && !OneRuns(s)
    ensures !OverlapIsExcluded(s0, lag, span)
  {
    assert IsPacedRun(h.tr, h.acts, lag, span) && h.tr[0] == s0 && !OneRuns(h.tr[|h.acts|]);
  }

  /** An entry that is reclaimable at first lets two workers in, whatever their pace. */
  lemma ReclaimableEntryOverlaps(s0: State, lag: nat, span: nat)
    requires s0.workers == map[] && Reclaimable(s0)
    ensures !OverlapIsExcluded(s0, lag, span)
  {
    var v := s0.entry.value;
    var d := if v.Unreadable? || v.at + TIMEOUT < s0.now then 0 else v.at + TIMEOUT + 1 - s0.now;
    var h := NothingYet(s0, lag, span);
    var s;
    h, s := Idle(h, s0, s0, d, lag, span);
    h, s := TakeoverRace(h, s0, s, 0, 1, lag, span);
    PastShows(h, s0, s, lag, span);
  }

  lemma UntilItIsFree(s0: State, lag: nat, span: nat) returns (h: Past, s: State)
    requires s0.workers == map[]
    ensures IsPast(h, s0, s, lag, span) && s.workers == map[] && !Live(s)
  {
    h := NothingYet(s0, lag, span);
    s := s0;
    if Live(s0) {
      h, s := Idle(h, s0, s0, s0.entry.until - s0.now, lag, span);
    }
  }

  lemma LateAddsOverlap(s0: State, lag: nat, span: nat)
    requires s0.workers == map[] && lag >= 2 && span >= 2
    ensures !OverlapIsExcluded(s0, lag, span)
  {
    var h, s := UntilItIsFree(s0, lag, span);
    h, s := TooOldAndStillThere(h, s0, s, 0, lag, span);
    h, s := TakeoverRace(h, s0, s, 1, 2, lag, span);
    PastShows(h, s0, s, lag, span);
  }

  lemma LongRunsOverlap(s0: State, lag: nat, span: nat)
    requires s0.workers == map[] && span >= TIMEOUT
    ensures !OverlapIsExcluded(s0, lag, span)
  {
    var h, s := UntilItIsFree(s0, lag, span);
    h, s := LongRunIsJoined(h, s0, s, 0, 1, lag, span);
    PastShows(h, s0, s, lag, span);
  }

  /** The lock prevents overlapping aggregations, whoever crashes, if and only if none lasts for
      `TIMEOUT` after its stamp, none can add more than a microsecond after its stamp, and the entry
      found at first cannot look abandoned while it is there. */
  lemma OverlapIsExcludedIff(s0: State, lag: nat, span: nat)
    requires s0.workers == map[]
    ensures
      OverlapIsExcluded(s0, lag, span) <==> span < TIMEOUT && (lag <= 1 || span <= 1) && !Reclaimable(s0)
  {
    if span >= TIMEOUT {
      LongRunsOverlap(s0, lag, span);
    } else if lag >= 2 && span >= 2 {
      LateAddsOverlap(s0, lag, span);
    } else if Reclaimable(s0) {
      ReclaimableEntryOverlaps(s0, lag, span);
    } else {
      forall tr, acts | IsPacedRun(tr, acts, lag, span) && tr[0] == s0
        ensures forall i | 0 <= i < |tr| :: OneRuns(tr[i])
      {
        PacedRunsExclude(tr, acts, lag, span);
      }
    }
  }

  // ---------------------------------------------------------------- the conditions of mutual exclusion, one by one

  predicate HoldsStamp(s: State) { s.entry.Entry? ==> s.entry.value.Stamp? }

  /** Workers store nothing but stamps. */
  lemma {:induction false} OnlyStamps(tr: seq<State>, acts: seq<Action>, i: nat)
    requires IsRun(tr, acts) && HoldsStamp(tr[0]) && i < |tr|
    ensures HoldsStamp(tr[i])
  {
    if i > 0 {
      OnlyStamps(tr, acts, i - 1);
      assert tr[i - 1 + 1] == Step(tr[i - 1], acts[i - 1]);
    }
  }

  /** Timely runs and readable stamps alone do not exclude overlapping aggregations. */
  lemma ExclusionNeedsUndisturbed() returns (tr: seq<State>, acts: seq<Action>)
    ensures IsRun(tr, acts) && tr[0] == State(0, Empty, map[]) && !OneRuns(tr[|acts|])
    ensures forall i | 0 <= i < |tr| :: Timely(tr[i]) && HoldsStamp(tr[i])
  {
    var s0 := State(0, Empty, map[]);
    var h := NothingYet(s0, 2, 2);
    var s;
    h, s := TooOldAndStillThere(h, s0, s0, 0, 2, 2);
    h, s := TakeoverRace(h, s0, s, 1, 2, 2, 2);
    tr, acts := h.tr, h.acts;
    forall i | 0 <= i < |tr|
      ensures Timely(tr[i]) && HoldsStamp(tr[i])
    {
      assert Paced(tr[i], 2);
      OnlyStamps(tr, acts, i);
    }
  }

  /** No takeover is disturbed, and no run lasts longer than `TIMEOUT` from its stamp. */
  ghost predicate IsQuietRun(tr: seq<State>, acts: seq<Action>) {
    && IsRun(tr, acts)
    && (forall i | 0 <= i < |acts| :: Undisturbed(tr[i], acts[i]))
    && forall s | s in tr :: AtMostTimeout(s)
  }

  predicate AtMostTimeout(s: State) {
    forall p | p in s.workers && s.workers[p].Running? :: s.now <= s.workers[p].began + TIMEOUT
  }

  lemma ExtendQuiet(tr: seq<State>, acts: seq<Action>, a: Action)
    returns (tr': seq<State>, acts': seq<Action>, s: State)
    requires IsQuietRun(tr, acts) && Enabled(tr[|acts|], a) && Undisturbed(tr[|acts|], a)
    requires AtMostTimeout(Step(tr[|acts|], a))
    ensures s == Step(tr[|acts|], a)
    ensures tr' == tr + [s] && acts' == acts + [a] && tr'[|acts'|] == s && tr'[0] == tr[0]
    ensures IsQuietRun(tr', acts')
  {
    s := Step(tr[|acts|], a);
    tr', acts' := tr + [s], acts + [a];
    forall i | 0 <= i < |acts'|
      ensures Enabled(tr'[i], acts'[i]) && tr'[i + 1] == Step(tr'[i], acts'[i]) && Undisturbed(tr'[i], acts'[i])
    {
      if i < |acts| {
        assert tr'[i] == tr[i] && tr'[i + 1] == tr[i + 1] && acts'[i] == acts[i];
      }
    }
  }

  /** And a run that is still going `TIMEOUT` after its stamp can be joined by another,
      with nobody taking anything over. */
  lemma ExclusionNeedsTimely() returns (tr: seq<State>, acts: seq<Action>)
    ensures IsQuietRun(tr, acts) && tr[0] == State(0, Empty, map[]) && !OneRuns(tr[|acts|])
  {
    var s;
    tr, acts := [State(0, Empty, map[])], [];
    tr, acts, s := ExtendQuiet(tr, acts, Start(0));
    tr, acts, s := ExtendQuiet(tr, acts, Add(0));
    tr, acts, s := ExtendQuiet(tr, acts, Tick(TIMEOUT));
    tr, acts, s := ExtendQuiet(tr, acts, Start(1));
    tr, acts, s := ExtendQuiet(tr, acts, Add(1));
    assert IsRunning(s, 0) && IsRunning(s, 1);
  }
}
