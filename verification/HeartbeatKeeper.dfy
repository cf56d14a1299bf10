/** The heartbeat keeper: a thread that sleeps until warm shutdown begins and then keeps the
    broker connection alive until it is terminated. Sends take no time; only waits do. */
module HeartbeatKeeper {
  import opened Options

  type Time = int

  datatype Config = Config(normalCheckInterval: nat, shutdownInterval: nat)

  /** How one attempt ends. Only `Sent` and `Failed` reach the connection. */
  datatype Outcome = NotReady | Sent | Failed | Broken

  datatype Attempt = Attempt(at: Time, outcome: Outcome)

  /** Where the thread stands in its loop. */
  datatype Place = AtTop | PastStopCheck | Active | Waiting(until: Time) | Exited

  /** `stopAt` and `endAt` record the first `stop` and the first `terminate`. */
  datatype State = State(
    now: Time,
    shutdownInProgress: bool,
    shouldStop: bool,
    place: Place,
    errors: nat,
    lastHeartbeat: Time,
    loggedStandby: bool,
    attempts: seq<Attempt>,
    stopAt: Option<Time>,
    endAt: Option<Time>)

  datatype Action =
    | Pass(d: nat)
    | Stop
    | Terminate
    | CheckStop
    | CheckFlag
    | TryHeartbeat(outcome: Outcome)
    | WakeUp

  /** Time passes only while the thread waits or is gone, and no further than its wake-up; a set
      event ends the wait at once. */
  predicate Enabled(s: State, a: Action) {
    match a
    case Pass(d) => s.place.Exited? || (s.place.Waiting? && !s.shouldStop && s.now + d <= s.place.until)
    case Stop => true
    case Terminate => true
    case CheckStop => s.place.AtTop?
    case CheckFlag => s.place.PastStopCheck?
    case TryHeartbeat(_) => s.place.Active?
    case WakeUp => s.place.Waiting? && (s.shouldStop || s.place.until <= s.now)
  }

  function Step(cfg: Config, s: State, a: Action): State
    requires Enabled(s, a)
  {
    match a
    case Pass(d) => s.(now := s.now + d)
    case Stop => s.(shutdownInProgress := true, stopAt := if s.stopAt.None? then Some(s.now) else s.stopAt)
    case Terminate => s.(shouldStop := true, endAt := if s.endAt.None? then Some(s.now) else s.endAt)
    case CheckStop => s.(place := if s.shouldStop then Exited else PastStopCheck)
    case CheckFlag =>
      if s.shutdownInProgress then s.(place := Active)
      else s.(loggedStandby := true, place := Waiting(s.now + cfg.normalCheckInterval))
    case TryHeartbeat(o) =>
      var last := if s.loggedStandby then s.now else s.lastHeartbeat;
      s.(loggedStandby := false,
         errors := match o case Sent => 0 case Failed => s.errors + 1 case _ => s.errors,
         lastHeartbeat := if o.Sent? then s.now else last,
         attempts := s.attempts + [Attempt(s.now, o)],
         place := Waiting(s.now + cfg.shutdownInterval))
    case WakeUp => s.(place := AtTop)
  }

  function Initial(now: Time): State {
    State(now, false, false, AtTop, 0, now, false, [], None, None)
  }

  predicate IsRun(cfg: Config, tr: seq<State>, acts: seq<Action>) {
    && |tr| == |acts| + 1 && tr[0] == Initial(tr[0].now)
    && forall i | 0 <= i < |acts| :: Enabled(tr[i], acts[i]) && tr[i + 1] == Step(cfg, tr[i], acts[i])
  }

  // ---------------------------------------------------------------- what holds in every state

  /** Failed sends since the last one that went through. */
  function FailuresSince(attempts: seq<Attempt>): nat {
    if attempts == [] then 0 else
      var a := attempts[|attempts| - 1];
      if a.outcome.Sent? then 0
      else FailuresSince(attempts[..|attempts| - 1]) + if a.outcome.Failed? then 1 else 0
  }

  function LastSent(attempts: seq<Attempt>): Option<Time> {
    if attempts == [] then None
    else if attempts[|attempts| - 1].outcome.Sent? then Some(attempts[|attempts| - 1].at)
    else LastSent(attempts[..|attempts| - 1])
  }

  function LastAttempt(s: State): Time
    requires s.attempts != []
  {
    s.attempts[|s.attempts| - 1].at
  }

  /** When the thread, left alone, attempts next at the latest. */
  ghost predicate DueBy(s: State, t: Time) {
    match s.place
    case Waiting(until) => until <= t
    case Exited => s.shouldStop
    case _ => s.now <= t || (s.place.AtTop? && s.shouldStop)
  }

  ghost predicate Inv(cfg: Config, s: State) {
    && (s.stopAt.Some? <==> s.shutdownInProgress) && (s.stopAt.Some? ==> s.stopAt.value <= s.now)
    && (s.endAt.Some? <==> s.shouldStop) && (s.endAt.Some? ==> s.endAt.value <= s.now)
    && (s.place.Exited? ==> s.shouldStop)
    && (s.shouldStop && !s.place.Exited? ==> s.now == s.endAt.value)
    && (s.place.Active? || s.attempts != [] ==> s.shutdownInProgress)
    && (s.place.Waiting? ==> s.now <= s.place.until)
    && s.errors == FailuresSince(s.attempts)
    && (s.loggedStandby ==> s.attempts == [])
    && (LastSent(s.attempts).Some? ==> s.lastHeartbeat == LastSent(s.attempts).value)
    && (if s.attempts == [] then AwaitsFirst(cfg, s) else AwaitsNext(cfg, s))
  }

  /** Before the first attempt. */
  ghost predicate AwaitsFirst(cfg: Config, s: State) {
    DueBy(s, (if s.stopAt.Some? then s.stopAt.value else s.now) + cfg.normalCheckInterval)
  }

  /** After it: the attempts are paced, and the next one is due exactly one interval later. */
  ghost predicate AwaitsNext(cfg: Config, s: State)
    requires s.attempts != []
  {
    && s.stopAt.Some? && s.stopAt.value <= s.attempts[0].at <= s.stopAt.value + cfg.normalCheckInterval
    && (forall i | 0 < i < |s.attempts| :: s.attempts[i].at == s.attempts[i - 1].at + cfg.shutdownInterval)
    && LastAttempt(s) <= s.now
    && match s.place
       case Waiting(until) => until == LastAttempt(s) + cfg.shutdownInterval
       case Exited => true
       case _ => s.now == LastAttempt(s) + cfg.shutdownInterval || (s.place.AtTop? && s.shouldStop)
  }

  lemma AttemptKeepsInv(cfg: Config, s: State, o: Outcome)
    requires Inv(cfg, s) && Enabled(s, TryHeartbeat(o))
    ensures Inv(cfg, Step(cfg, s, TryHeartbeat(o)))
  {
    var t := Step(cfg, s, TryHeartbeat(o));
    assert t.attempts[..|t.attempts| - 1] == s.attempts;
  }

  /** The clock and the two signals. */
  lemma OutsideKeepsInv(cfg: Config, s: State, a: Action)
    requires Inv(cfg, s) && Enabled(s, a) && (a.Pass? || a.Stop? || a.Terminate?)
    ensures Inv(cfg, Step(cfg, s, a))
  {
  }

  lemma LoopKeepsInv(cfg: Config, s: State, a: Action)
    requires Inv(cfg, s) && Enabled(s, a) && (a.CheckStop? || a.CheckFlag? || a.WakeUp?)
    ensures Inv(cfg, Step(cfg, s, a))
  {
  }

  lemma StepKeepsInv(cfg: Config, s: State, a: Action)
    requires Inv(cfg, s) && Enabled(s, a)
    ensures Inv(cfg, Step(cfg, s, a))
  {
    hide Inv;
    hide Step;
    match a
    case TryHeartbeat(o) => AttemptKeepsInv(cfg, s, o);
    case CheckStop => LoopKeepsInv(cfg, s, a);
    case CheckFlag => LoopKeepsInv(cfg, s, a);
    case WakeUp => LoopKeepsInv(cfg, s, a);
    case _ => OutsideKeepsInv(cfg, s, a);
  }

  lemma {:induction false} InvHolds(cfg: Config, tr: seq<State>, acts: seq<Action>, i: nat)
    requires IsRun(cfg, tr, acts) && i < |tr|
    ensures Inv(cfg, tr[i])
  {
    if i > 0 {
      InvHolds(cfg, tr, acts, i - 1);
      StepKeepsInv(cfg, tr[i - 1], acts[i - 1]);
    }
  }

  lemma InvNow(cfg: Config, tr: seq<State>, acts: seq<Action>, s: State)
    requires IsRun(cfg, tr, acts) && tr[|acts|] == s
    ensures Inv(cfg, s)
  {
    InvHolds(cfg, tr, acts, |acts|);
  }

  // ---------------------------------------------------------------- over whole runs

  /** No heartbeat before `stop`; the first attempt at most a check interval after it; every later
      one exactly a shutdown interval after the one before. */
  lemma HeartbeatsArePaced(cfg: Config, tr: seq<State>, acts: seq<Action>, i: nat)
    requires IsRun(cfg, tr, acts) && i < |tr| && tr[i].attempts != []
    ensures
      var s := tr[i];
      && s.stopAt.Some? && s.stopAt.value <= s.attempts[0].at <= s.stopAt.value + cfg.normalCheckInterval
      && forall j | 0 < j < |s.attempts| :: s.attempts[j].at == s.attempts[j - 1].at + cfg.shutdownInterval
  {
    InvHolds(cfg, tr, acts, i);
  }

  /** And they do come: while nobody has called `terminate`, the connection is never left alone
      for longer than that. */
  lemma NeverLate(cfg: Config, tr: seq<State>, acts: seq<Action>, i: nat)
    requires IsRun(cfg, tr, acts) && i < |tr| && tr[i].endAt.None? && tr[i].stopAt.Some?
    ensures
      var s := tr[i];
      if s.attempts == [] then s.now <= s.stopAt.value + cfg.normalCheckInterval
      else s.now <= LastAttempt(s) + cfg.shutdownInterval
  {
    InvHolds(cfg, tr, acts, i);
  }

  /** The counter is the number of failed sends since the last success, and attempts that never
      reached the connection do not count; the time of the last success is remembered. */
  lemma ErrorsAreFailures(cfg: Config, tr: seq<State>, acts: seq<Action>, i: nat)
    requires IsRun(cfg, tr, acts) && i < |tr|
    ensures tr[i].errors == FailuresSince(tr[i].attempts)
    ensures LastSent(tr[i].attempts).Some? ==> tr[i].lastHeartbeat == LastSent(tr[i].attempts).value
  {
    InvHolds(cfg, tr, acts, i);
  }

  /** The positions of the failed attempts from `k` on. */
  function FailedFrom(attempts: seq<Attempt>, k: nat): set<nat> {
    set j | k <= j < |attempts| && attempts[j].outcome.Failed?
  }

  lemma FailedBefore(attempts: seq<Attempt>, k: nat)
    requires k < |attempts|
    ensures
      var n := |attempts| - 1;
      && n !in FailedFrom(attempts[..n], k)
      && FailedFrom(attempts, k) ==
         FailedFrom(attempts[..n], k) + if attempts[n].outcome.Failed? then {n} else {}
  {
  }

  lemma {:induction false} CountedFrom(attempts: seq<Attempt>, k: nat)
    requires k <= |attempts| && (k == 0 || attempts[k - 1].outcome.Sent?)
    requires forall j | k <= j < |attempts| :: !attempts[j].outcome.Sent?
    ensures FailuresSince(attempts) == |FailedFrom(attempts, k)|
    ensures LastSent(attempts) == if k == 0 then None else Some(attempts[k - 1].at)
    decreases |attempts|
  {
    if k < |attempts| {
      FailedBefore(attempts, k);
      hide FailedFrom;
      CountedFrom(attempts[..|attempts| - 1], k);
    } else {
      assert FailedFrom(attempts, k) == {};
    }
  }

  /** The same by position: if `k` attempts were made up to and with the last that was sent, the
      counter is the number of failed ones from the `k`-th on. */
  lemma ErrorsAreCounted(cfg: Config, tr: seq<State>, acts: seq<Action>, i: nat, k: nat)
    requires IsRun(cfg, tr, acts) && i < |tr|
    requires k <= |tr[i].attempts| && (k == 0 || tr[i].attempts[k - 1].outcome.Sent?)
    requires forall j | k <= j < |tr[i].attempts| :: !tr[i].attempts[j].outcome.Sent?
    ensures tr[i].errors == |FailedFrom(tr[i].attempts, k)|
    ensures k > 0 ==> tr[i].lastHeartbeat == tr[i].attempts[k - 1].at
  {
    ErrorsAreFailures(cfg, tr, acts, i);
    CountedFrom(tr[i].attempts, k);
  }

  /** The loop is left only after `terminate`, however many sends failed, and no time passes
      between the two. */
  lemma ExitsOnlyWhenTerminated(cfg: Config, tr: seq<State>, acts: seq<Action>, i: nat)
    requires IsRun(cfg, tr, acts) && i < |tr|
    ensures tr[i].place.Exited? ==> tr[i].endAt.Some?
    ensures tr[i].endAt.Some? && !tr[i].place.Exited? ==> tr[i].now == tr[i].endAt.value
  {
    InvHolds(cfg, tr, acts, i);
  }

  /** One attempt may still be under way when `terminate` is called. */
  function InFlight(s: State): nat { if s.place.PastStopCheck? || s.place.Active? then 1 else 0 }

  lemma {:induction false} AtMostOneMore(cfg: Config, tr: seq<State>, acts: seq<Action>, i: nat, j: nat)
    requires IsRun(cfg, tr, acts) && i <= j < |tr| && tr[i].shouldStop
    ensures tr[j].shouldStop
    ensures |tr[j].attempts| + InFlight(tr[j]) <= |tr[i].attempts| + InFlight(tr[i]) <= |tr[i].attempts| + 1
    decreases j
  {
    if i < j {
      AtMostOneMore(cfg, tr, acts, i, j - 1);
      assert tr[j] == Step(cfg, tr[j - 1], acts[j - 1]);
    }
  }

  // ---------------------------------------------------------------- going on

  /** The actions are possible one after another and lead from `s` to `t`. */
  ghost predicate Leads(cfg: Config, s: State, more: seq<Action>, t: State)
    decreases |more|
  {
    if more == [] then s == t else Enabled(s, more[0]) && Leads(cfg, Step(cfg, s, more[0]), more[1..], t)
  }

  /** What is possible from the end of a run makes a longer run. */
  lemma {:induction false} RunGoesOn(cfg: Config, tr: seq<State>, acts: seq<Action>, more: seq<Action>, t: State)
    returns (tr': seq<State>)
    requires IsRun(cfg, tr, acts) && Leads(cfg, tr[|acts|], more, t)
    ensures IsRun(cfg, tr', acts + more) && tr <= tr' && tr'[|acts + more|] == t
    decreases |more|
  {
    if more == [] {
      tr' := tr;
      assert acts + more == acts;
    } else {
      tr' := RunGoesOn(cfg, tr + [Step(cfg, tr[|acts|], more[0])], acts + [more[0]], more[1..], t);
      assert acts + [more[0]] + more[1..] == acts + more;
    }
  }

  lemma LeadsOn(cfg: Config, s: State, more: seq<Action>, t: State, a: Action)
    requires Leads(cfg, s, more, t) && Enabled(t, a)
    ensures Leads(cfg, s, more + [a], Step(cfg, t, a))
    decreases |more|
  {
    if more != [] {
      assert (more + [a])[1..] == more[1..] + [a];
      LeadsOn(cfg, Step(cfg, s, more[0]), more[1..], t, a);
    }
  }

  /** Nothing can keep the thread from its next attempt: any run in which warm shutdown has begun and
      nobody terminated can go on to one more attempt, however it ends, at the end of the wait under way,
      or at once if there is none. */
  lemma NextAttemptComes(cfg: Config, tr: seq<State>, acts: seq<Action>, o: Outcome)
    returns (more: seq<Action>, t: State)
    requires IsRun(cfg, tr, acts)
    requires var s := tr[|acts|]; s.shutdownInProgress && !s.shouldStop
    ensures Leads(cfg, tr[|acts|], more, t)
    ensures
      var s := tr[|acts|];
      var at := if s.place.Waiting? then s.place.until else s.now;
      && t.attempts == s.attempts + [Attempt(at, o)] && t.now == at
      && t.place == Waiting(at + cfg.shutdownInterval)
  {
    InvHolds(cfg, tr, acts, |acts|);
    hide IsRun;
    more, t := Awake(cfg, tr[|acts|]);
    if t.place.PastStopCheck? {
      LeadsOn(cfg, tr[|acts|], more, t, CheckFlag);
      more, t := more + [CheckFlag], Step(cfg, t, CheckFlag);
    }
    LeadsOn(cfg, tr[|acts|], more, t, TryHeartbeat(o));
    more, t := more + [TryHeartbeat(o)], Step(cfg, t, TryHeartbeat(o));
  }

  /** Past the wait under way, if there is one, and past the test of the stop event. */
  lemma Awake(cfg: Config, s: State) returns (more: seq<Action>, t: State)
    requires !s.place.Exited? && !s.shouldStop && (s.place.Waiting? ==> s.now <= s.place.until)
    ensures Leads(cfg, s, more, t)
    ensures t == s.(now := if s.place.Waiting? then s.place.until else s.now,
                    place := if s.place.Active? then Active else PastStopCheck)
  {
    more, t := [], s;
    if t.place.Waiting? {
      var d := s.place.until - s.now;
      LeadsOn(cfg, s, more, t, Pass(d));
      more, t := more + [Pass(d)], Step(cfg, t, Pass(d));
      LeadsOn(cfg, s, more, t, WakeUp);
      more, t := more + [WakeUp], Step(cfg, t, WakeUp);
    }
    if t.place.AtTop? {
      LeadsOn(cfg, s, more, t, CheckStop);
      more, t := more + [CheckStop], Step(cfg, t, CheckStop);
    }
  }

  /** Before warm shutdown the thread can go on standing by: it looks again after the check interval and
      attempts nothing. */
  lemma StandbyGoesOn(cfg: Config, tr: seq<State>, acts: seq<Action>) returns (more: seq<Action>, t: State)
    requires IsRun(cfg, tr, acts)
    requires var s := tr[|acts|]; !s.shutdownInProgress && !s.shouldStop
    ensures Leads(cfg, tr[|acts|], more, t)
    ensures
      var s := tr[|acts|];
      var at := if s.place.Waiting? then s.place.until else s.now;
      t.place == Waiting(at + cfg.normalCheckInterval) && t.now == at && t.attempts == s.attempts == []
  {
    InvHolds(cfg, tr, acts, |acts|);
    hide IsRun;
    more, t := Awake(cfg, tr[|acts|]);
    LeadsOn(cfg, tr[|acts|], more, t, CheckFlag);
    more, t := more + [CheckFlag], Step(cfg, t, CheckFlag);
  }

  /** And once it is terminated nothing can keep the thread from the end of its loop, at the same instant. */
  lemma ExitComes(cfg: Config, s: State) returns (more: seq<Action>, t: State)
    requires s.shouldStop
    ensures Leads(cfg, s, more, t) && t.place.Exited? && t.now == s.now
  {
    more, t := [], s;
    if t.place.PastStopCheck? {
      LeadsOn(cfg, s, more, t, CheckFlag);
      more, t := more + [CheckFlag], Step(cfg, t, CheckFlag);
    }
    if t.place.Active? {
      LeadsOn(cfg, s, more, t, TryHeartbeat(NotReady));
      more, t := more + [TryHeartbeat(NotReady)], Step(cfg, t, TryHeartbeat(NotReady));
    }
    if t.place.Waiting? {
      LeadsOn(cfg, s, more, t, WakeUp);
      more, t := more + [WakeUp], Step(cfg, t, WakeUp);
    }
    if t.place.AtTop? {
      LeadsOn(cfg, s, more, t, CheckStop);
      more, t := more + [CheckStop], Step(cfg, t, CheckStop);
    }
  }

  // ---------------------------------------------------------------- the thread

  class HeartbeatKeeper {
    const cfg: Config
    var now: Time
    var shutdownInProgress: bool
    var shouldStop: bool
    var place: Place
    var consecutiveErrors: nat
    var lastHeartbeat: Time
    var loggedStandby: bool
    ghost var attempts: seq<Attempt>
    ghost var stopAt: Option<Time>
    ghost var endAt: Option<Time>
    ghost var visited: seq<State>
    ghost var acts: seq<Action>

    ghost function Snapshot(): State
      reads this
    {
      State(now, shutdownInProgress, shouldStop, place, consecutiveErrors, lastHeartbeat, loggedStandby, attempts,
            stopAt, endAt)
    }

    ghost predicate Valid()
      reads this
    {
      IsRun(cfg, visited, acts) && visited[|acts|] == Snapshot()
    }

    constructor (cfg: Config, now: Time)
      ensures Valid() && this.cfg == cfg && Snapshot() == Initial(now)
    {
      this.cfg, this.now := cfg, now;
      shutdownInProgress, shouldStop, place := false, false, AtTop;
      consecutiveErrors, lastHeartbeat, loggedStandby := 0, now, false;
      attempts, stopAt, endAt := [], None, None;
      visited, acts := [Initial(now)], [];
    }

    /** The fields have moved on by one step of the protocol. */
    ghost method Record(before: State, a: Action)
      requires IsRun(cfg, visited, acts) && visited[|acts|] == before
      requires Enabled(before, a) && Snapshot() == Step(cfg, before, a)
      modifies `visited, `acts
      ensures Valid() && acts == old(acts) + [a]
    {
      var was, run := visited, acts;
      visited, acts := visited + [Snapshot()], acts + [a];
      forall i | 0 <= i < |acts|
        ensures Enabled(visited[i], acts[i]) && visited[i + 1] == Step(cfg, visited[i], acts[i])
      {
        if i < |run| {
          assert visited[i] == was[i] && visited[i + 1] == was[i + 1] && acts[i] == run[i];
        }
      }
    }

    method Stop()
      requires Valid()
      modifies this
      ensures Valid() && Snapshot() == Step(cfg, old(Snapshot()), Action.Stop)
    {
      ghost var before := Snapshot();
      shutdownInProgress := true;
      stopAt := if stopAt.None? then Some(now) else stopAt;
      Record(before, Action.Stop);
    }

    method Terminate()
      requires Valid()
      modifies this
      ensures Valid() && Snapshot() == Step(cfg, old(Snapshot()), Action.Terminate)
    {
      ghost var before := Snapshot();
      shouldStop := true;
      endAt := if endAt.None? then Some(now) else endAt;
      Record(before, Action.Terminate);
    }

    /** `d` seconds of a wait, or of the time after the thread has gone. */
    method Wait(d: nat)
      requires Valid() && Enabled(Snapshot(), Pass(d))
      modifies this
      ensures Valid() && Snapshot() == Step(cfg, old(Snapshot()), Pass(d))
    {
      ghost var before := Snapshot();
      now := now + d;
      Record(before, Pass(d));
    }

    /** The end of a wait, if there was one, and the test of the event. */
    method TopOfLoop()
      requires Valid() && (place.AtTop? || Enabled(Snapshot(), WakeUp))
      modifies this
      ensures Valid() && Snapshot() == old(Snapshot()).(place := if shouldStop then Exited else PastStopCheck)
    {
      hide IsRun;
      if !place.AtTop? {
        ghost var waiting := Snapshot();
        place := AtTop;
        Record(waiting, WakeUp);
      }
      ghost var top := Snapshot();
      place := if shouldStop then Exited else PastStopCheck;
      Record(top, CheckStop);
    }

    /** Standby, or on to an attempt. */
    method ReadFlag()
      requires Valid() && place.PastStopCheck?
      modifies this
      ensures Valid() && Snapshot() == Step(cfg, old(Snapshot()), CheckFlag)
    {
      hide IsRun;
      ghost var checked := Snapshot();
      if !shutdownInProgress {
        loggedStandby := true;
        place := Waiting(now + cfg.normalCheckInterval);
      } else {
        place := Active;
      }
      Record(checked, CheckFlag);
    }

    /** One pass of the loop, from the wake-up to the next wait: nothing but a standby wait before
        `stop`, one attempt after it, and the end of the thread once it is to stop. */
    method LoopPass(outcome: Outcome)
      requires Valid() && (place.AtTop? || Enabled(Snapshot(), WakeUp))
      modifies this
      ensures Valid() && now == old(now) && shouldStop == old(shouldStop) &&
        shutdownInProgress == old(shutdownInProgress)
      ensures shouldStop ==> place == Exited && attempts == old(attempts) && consecutiveErrors == old(consecutiveErrors)
      ensures !shouldStop && !shutdownInProgress ==>
        place == Waiting(now + cfg.normalCheckInterval) && attempts == old(attempts) &&
          consecutiveErrors == old(consecutiveErrors)
      ensures !shouldStop && shutdownInProgress ==>
        place == Waiting(now + cfg.shutdownInterval) && attempts == old(attempts) + [Attempt(now, outcome)]
      ensures consecutiveErrors == FailuresSince(attempts)
    {
      hide IsRun;
      hide FailuresSince;
      hide LastSent;
      TopOfLoop();
      if place.PastStopCheck? {
        ReadFlag();
        if place.Active? {
          AttemptShutdownHeartbeat(outcome);
        }
      }
      InvNow(cfg, visited, acts, Snapshot());
    }

    /** Takes over from standby, then makes one attempt, whatever comes of it. */
    method AttemptShutdownHeartbeat(outcome: Outcome)
      requires Valid() && place.Active?
      modifies this
      ensures Valid() && Snapshot() == Step(cfg, old(Snapshot()), TryHeartbeat(outcome))
    {
      hide IsRun;
      ghost var before := Snapshot();
      if loggedStandby {
        loggedStandby := false;
        lastHeartbeat := now;
      }
      match outcome {
        case Sent => consecutiveErrors, lastHeartbeat := 0, now;
        case Failed => consecutiveErrors := consecutiveErrors + 1;
        case NotReady =>
        case Broken =>
      }
      attempts := attempts + [Attempt(now, outcome)];
      place := Waiting(now + cfg.shutdownInterval);
      Record(before, TryHeartbeat(outcome));
    }
  }
}
