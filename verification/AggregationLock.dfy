/** The aggregation lock: one cache entry that holds the time its owner started, taken over
    when it is too old or unreadable. Any number of workers interleave, one cache command a
    step, and may be killed at any point. */
module AggregationLock {
  type Time = int
  type Pid = nat

  /** 900 seconds, in microseconds. */
  const TIMEOUT: Time := 900_000_000

  datatype Value = Stamp(at: Time) | Unreadable

  /** The entry is gone once `until` is reached. */
  datatype Entry = Empty | Entry(value: Value, until: Time)

  /** `began` is what the worker read off the clock when its attempt started. */
  datatype Phase =
    | Started(began: Time)
    | Refused(began: Time)
    | SawNothing(began: Time)
    | Reclaiming(began: Time)
    | Cleared(began: Time)
    | Running(began: Time)
    | Done
    | Dead

  datatype State = State(now: Time, entry: Entry, workers: map<Pid, Phase>)

  datatype Action =
    | Tick(d: nat)
    | Start(p: Pid)
    | Add(p: Pid)
    | Get(p: Pid)
    | Delete(p: Pid)
    | Finish(p: Pid)
    | Kill(p: Pid)

  predicate Live(s: State) { s.entry.Entry? && s.now < s.entry.until }

  /** What `get` makes a worker take for abandoned. */
  predicate Abandoned(v: Value, began: Time) {
    v.Unreadable? || began - v.at > TIMEOUT
  }

  predicate CanAdd(ph: Phase) { ph.Started? || ph.SawNothing? || ph.Cleared? }

  predicate Enabled(s: State, a: Action) {
    match a
    case Tick(_) => true
    case Start(p) => p !in s.workers
    case Add(p) => p in s.workers && CanAdd(s.workers[p])
    case Get(p) => p in s.workers && s.workers[p].Refused?
    case Delete(p) => p in s.workers && s.workers[p].Reclaiming?
    case Finish(p) => p in s.workers && s.workers[p].Running?
    case Kill(p) => p in s.workers
  }

  function Goto(s: State, p: Pid, ph: Phase): State {
    s.(workers := s.workers[p := ph])
  }

  function Step(s: State, a: Action): State
    requires Enabled(s, a)
  {
    match a
    case Tick(d) => s.(now := s.now + d)
    case Start(p) => Goto(s, p, Started(s.now))
    case Add(p) =>
      var ph := s.workers[p];
      if !Live(s) then Goto(s, p, Running(ph.began)).(entry := Entry(Stamp(ph.began), s.now + TIMEOUT))
      else Goto(s, p, if ph.Started? then Refused(ph.began) else Done)
    case Get(p) =>
      var began := s.workers[p].began;
      Goto(s, p, if !Live(s) then SawNothing(began) else if Abandoned(s.entry.value, began)
           then Reclaiming(began) else Done)
    case Delete(p) => Goto(s, p, Cleared(s.workers[p].began)).(entry := Empty)
    case Finish(p) => Goto(s, p, Done).(entry := Empty)
    case Kill(p) => Goto(s, p, Dead)
  }

  /** A run may find any entry left in the cache. */
  predicate IsRun(tr: seq<State>, acts: seq<Action>) {
    && |tr| == |acts| + 1 && tr[0].workers == map[]
    && forall i | 0 <= i < |acts| :: Enabled(tr[i], acts[i]) && tr[i + 1] == Step(tr[i], acts[i])
  }

  // ---------------------------------------------------------------- mutual exclusion

  predicate IsRunning(s: State, p: Pid) { p in s.workers && s.workers[p].Running? }

  /** `p` has decided to take the entry over and has not added its own yet. */
  predicate MidReclaim(s: State, p: Pid) {
    p in s.workers && (s.workers[p].Reclaiming? || s.workers[p].Cleared?)
  }

  /** No run lasts until `TIMEOUT` after its stamp; the job is killed after 660 seconds. */
  predicate Timely(s: State) {
    forall p | p in s.workers && s.workers[p].Running? :: s.now < s.workers[p].began + TIMEOUT
  }

  /** Nobody's add succeeds while another worker is between its get and its add. */
  predicate Undisturbed(s: State, a: Action) {
    a.Add? && !Live(s) ==> forall q | q in s.workers && q != a.p :: !MidReclaim(s, q)
  }

  ghost predicate OneRuns(s: State) {
    forall p, q | IsRunning(s, p) && IsRunning(s, q) :: p == q
  }

  ghost predicate Inv(s: State) {
    && OneRuns(s)
    && (forall p | p in s.workers && !s.workers[p].Done? && !s.workers[p].Dead? :: s.workers[p].began <= s.now)
    && (forall p | IsRunning(s, p) ::
          s.entry.Entry? && s.entry.value == Stamp(s.workers[p].began) && s.workers[p].began + TIMEOUT <= s.entry.until)
    && (forall p, q | IsRunning(s, p) && MidReclaim(s, q) :: p == q)
  }

  /** What one worker's step does not touch. */
  lemma OthersKeep(s: State, a: Action, q: Pid)
    requires Enabled(s, a) && (a.Tick? || q != a.p)
    ensures var t := Step(s, a); IsRunning(t, q) == IsRunning(s, q) && MidReclaim(t, q) == MidReclaim(s, q)
    ensures var t := Step(s, a); q in t.workers <==> q in s.workers
    ensures var t := Step(s, a); q in s.workers ==> t.workers[q] == s.workers[q]
  {
  }

  lemma RunningIsLive(s: State)
    requires Inv(s) && Timely(s)
    ensures (exists p :: IsRunning(s, p)) ==> Live(s)
  {
  }

  lemma AddKeepsInv(s: State, p: Pid)
    requires Inv(s) && Timely(s) && Enabled(s, Add(p)) && Undisturbed(s, Add(p))
    ensures Inv(Step(s, Add(p)))
  {
    var t := Step(s, Add(p));
    RunningIsLive(s);
    forall q | q != p
      ensures IsRunning(t, q) == IsRunning(s, q) && MidReclaim(t, q) == MidReclaim(s, q)
    {
      OthersKeep(s, Add(p), q);
    }
  }

  lemma GetKeepsInv(s: State, p: Pid)
    requires Inv(s) && Timely(s) && Enabled(s, Get(p))
    ensures Inv(Step(s, Get(p)))
  {
    var t := Step(s, Get(p));
    RunningIsLive(s);
    forall q | q != p
      ensures IsRunning(t, q) == IsRunning(s, q) && MidReclaim(t, q) == MidReclaim(s, q)
    {
      OthersKeep(s, Get(p), q);
    }
  }

  /** Whoever removes the entry is the one running, or nobody is. */
  lemma RemovalKeepsInv(s: State, a: Action)
    requires Inv(s) && Enabled(s, a) && (a.Delete? || a.Finish?)
    ensures Inv(Step(s, a))
  {
    var t := Step(s, a);
    assert if a.Finish? then IsRunning(s, a.p) else MidReclaim(s, a.p);
    forall q
      ensures !IsRunning(t, q)
    {
      if q != a.p {
        OthersKeep(s, a, q);
      }
    }
  }

  lemma OtherKeepsInv(s: State, a: Action)
    requires Inv(s) && Enabled(s, a) && (a.Start? || a.Kill? || a.Tick?)
    ensures Inv(Step(s, a))
  {
    var t := Step(s, a);
    forall q
      ensures IsRunning(t, q) ==> IsRunning(s, q) && t.workers[q] == s.workers[q]
      ensures MidReclaim(t, q) ==> MidReclaim(s, q)
    {
      if a.Tick? || q != a.p {
        OthersKeep(s, a, q);
      }
    }
  }

  lemma StepKeepsInv(s: State, a: Action)
    requires Inv(s) && Timely(s) && Enabled(s, a) && Undisturbed(s, a)
    ensures Inv(Step(s, a))
  {
    match a
    case Add(p) => AddKeepsInv(s, p);
    case Get(p) => GetKeepsInv(s, p);
    case Delete(_) => RemovalKeepsInv(s, a);
    case Finish(_) => RemovalKeepsInv(s, a);
    case _ => OtherKeepsInv(s, a);
  }

  lemma {:induction false} InvHolds(tr: seq<State>, acts: seq<Action>, i: nat)
    requires IsRun(tr, acts) && i < |tr|
    requires forall k | 0 <= k < i :: Timely(tr[k]) && Undisturbed(tr[k], acts[k])
    ensures Inv(tr[i])
  {
    if i > 0 {
      InvHolds(tr, acts, i - 1);
      StepKeepsInv(tr[i - 1], acts[i - 1]);
    }
  }

  /** Two aggregations never overlap, whoever crashes and whatever the cache held at first, as
      long as runs end in time and no add lands inside another worker's takeover. */
  lemma MutualExclusion(tr: seq<State>, acts: seq<Action>)
    requires IsRun(tr, acts)
    requires forall k | 0 <= k < |acts| :: Timely(tr[k]) && Undisturbed(tr[k], acts[k])
    ensures forall i | 0 <= i < |tr| :: OneRuns(tr[i])
  {
    forall i | 0 <= i < |tr|
      ensures OneRuns(tr[i])
    {
      InvHolds(tr, acts, i);
    }
  }

  // ---------------------------------------------------------------- self-healing

  /** What one uninterrupted attempt finds free. */
  predicate Acquirable(s: State) {
    !Live(s) || Abandoned(s.entry.value, s.now)
  }

  /** Entries were written at or before now and last no longer than `TIMEOUT`. */
  predicate Sane(s: State) {
    s.entry.Entry? ==> s.entry.until <= s.now + TIMEOUT
  }

  lemma {:induction false} SaneHolds(tr: seq<State>, acts: seq<Action>, i: nat)
    requires IsRun(tr, acts) && Sane(tr[0]) && i < |tr|
    ensures Sane(tr[i])
  {
    if i > 0 {
      SaneHolds(tr, acts, i - 1);
      assert tr[i] == Step(tr[i - 1], acts[i - 1]);
    }
  }

  /** In any run, whoever holds the entry and however it died: once it is left alone for
      `TIMEOUT`, the next attempt gets it. */
  lemma HealsAfterTimeout(tr: seq<State>, acts: seq<Action>, i: nat, d: nat)
    requires IsRun(tr, acts) && Sane(tr[0]) && i < |tr| && d >= TIMEOUT
    ensures Acquirable(Step(tr[i], Tick(d)))
  {
    SaneHolds(tr, acts, i);
  }

  // ---------------------------------------------------------------- one worker amid others

  /** What the other workers and the clock do before each command of a worker. */
  type Weather = nat -> seq<Action>

  ghost predicate Quiet(others: Weather) { forall i :: others(i) == [] }

  predicate Moves(a: Action, p: Pid) { !a.Tick? && a.p == p }

  predicate SameWorker(s: State, t: State, p: Pid) {
    (p in t.workers <==> p in s.workers) && (p in s.workers ==> t.workers[p] == s.workers[p])
  }

  /** At some moment from `lo` on the entry was live. */
  ghost predicate SeenLive(tr: seq<State>, lo: nat) {
    exists i | lo <= i < |tr| :: Live(tr[i])
  }

  /** The entry was free before the step and carries the worker's stamp after it. */
  predicate Takes(s: State, t: State, began: Time) {
    !Live(s) && t.entry == Entry(Stamp(began), s.now + TIMEOUT)
  }

  ghost predicate SeenTaken(tr: seq<State>, lo: nat, began: Time) {
    exists i | lo < i < |tr| :: Takes(tr[i - 1], tr[i], began)
  }

  lemma SeenLater(tr: seq<State>, more: seq<State>, lo: nat)
    requires tr <= more
    ensures SeenLive(tr, lo) ==> SeenLive(more, lo)
    ensures forall began :: SeenTaken(tr, lo, began) ==> SeenTaken(more, lo, began)
  {
    assert forall i | 0 <= i < |tr| :: more[i] == tr[i];
  }

  lemma SeenSince(tr: seq<State>, lo: nat, from: nat, began: Time)
    requires from <= lo
    ensures SeenLive(tr, lo) ==> SeenLive(tr, from)
    ensures SeenTaken(tr, lo, began) ==> SeenTaken(tr, from, began)
  {
  }

  /** The cache and the clock as one worker sees them. Every cache command is a protocol step. */
  class AggregationTask {
    var s: State
    ghost var visited: seq<State>
    ghost var acts: seq<Action>

    ghost predicate Valid()
      reads this
    {
      IsRun(visited, acts) && visited[|acts|] == s
    }

    constructor (now: Time, entry: Entry)
      ensures Valid() && s == State(now, entry, map[])
    {
      s := State(now, entry, map[]);
      visited, acts := [State(now, entry, map[])], [];
    }

    method Do(a: Action)
      requires Valid() && Enabled(s, a)
      modifies this
      ensures Valid() && s == Step(old(s), a)
      ensures acts == old(acts) + [a] && visited == old(visited) + [s]
      ensures |old(visited)| > 0 && old(visited)[|old(visited)| - 1] == old(s)
    {
      var was, run := visited, acts;
      s := Step(s, a);
      visited, acts := visited + [s], acts + [a];
      forall i | 0 <= i < |acts|
        ensures Enabled(visited[i], acts[i]) && visited[i + 1] == Step(visited[i], acts[i])
      {
        if i < |run| {
          assert visited[i] == was[i] && visited[i + 1] == was[i + 1] && acts[i] == run[i];
        }
      }
    }

    /** What happens while worker `p` is between two commands. */
    method Others(p: Pid, todo: seq<Action>)
      requires Valid()
      modifies this
      ensures Valid() && old(visited) <= visited && SameWorker(old(s), s, p)
      ensures todo == [] ==> s == old(s)
    {
      hide IsRun;
      for i := 0 to |todo|
        invariant Valid() && old(visited) <= visited && SameWorker(old(s), s, p)
        invariant i == 0 ==> s == old(s)
      {
        if Enabled(s, todo[i]) && !Moves(todo[i], p) {
          Do(todo[i]);
        }
      }
    }

    /** One `cache.add`. */
    method TryAdd(p: Pid, todo: seq<Action>)
      requires Valid() && p in s.workers && CanAdd(s.workers[p])
      modifies this
      ensures Valid() && old(visited) <= visited && p in s.workers
      ensures
        var ph := old(s.workers[p]);
        if s.workers[p] == Running(ph.began) then SeenTaken(visited, |old(visited)| - 1, ph.began)
        else SeenLive(visited, |old(visited)| - 1) && s.workers[p] == if ph.Started? then Refused(ph.began) else Done
      ensures todo == [] ==> s == Step(old(s), Add(p))
    {
      hide IsRun;
      Others(p, todo);
      ghost var was := s;
      Do(Add(p));
      assert visited[|visited| - 2] == was && visited[|visited| - 1] == s;
      assert Live(was) || Takes(was, s, s.workers[p].began);
    }

    /** A worker that found the entry in place looks at it, takes it away if it is abandoned, and
        tries once more unless somebody is at work. */
    method LookAgain(p: Pid, others: Weather)
      requires Valid() && p in s.workers && s.workers[p].Refused?
      modifies this
      ensures Valid() && old(visited) <= visited && p in s.workers
      ensures
        var began := old(s.workers[p].began);
        if s.workers[p] == Running(began) then SeenTaken(visited, |old(visited)| - 1, began)
        else s.workers[p] == Done && SeenLive(visited, |old(visited)| - 1)
      ensures Quiet(others) && Live(old(s)) ==>
        var began := old(s.workers[p].began);
        && s.now == old(s.now)
        && var taken := Abandoned(old(s.entry.value), began);
           && s.entry == (if taken then Entry(Stamp(began), s.now + TIMEOUT) else old(s.entry))
           && s.workers == old(s.workers)[p := if taken then Running(began) else Done]
    {
      hide IsRun;
      Others(p, others(2));
      ghost var was, before := s, visited;
      Do(Get(p));
      if s.workers[p].SawNothing? {
        TryAdd(p, others(3));
      } else if s.workers[p].Reclaiming? {
        Others(p, others(4));
        Do(Delete(p));
        TryAdd(p, others(5));
      } else {
        assert visited[|visited| - 2] == was && Live(was);
      }
    }

    /** An attempt amid other workers: it gets the lock only by finding the entry free, which then
        carries its stamp, and gives up only having seen the entry live. Alone, it takes the lock
        exactly when no entry is there, or the one that is there cannot be read or is more than
        `TIMEOUT` old; otherwise it changes nothing. */
    method AcquireAggregationLock(p: Pid, others: Weather) returns (acquired: bool)
      requires Valid() && p !in s.workers
      modifies this
      ensures Valid() && old(visited) <= visited && p in s.workers
      ensures s.workers[p] == if acquired then Running(old(s.now)) else Done
      ensures if acquired then SeenTaken(visited, |old(visited)| - 1, old(s.now))
        else SeenLive(visited, |old(visited)| - 1)
      ensures Quiet(others) ==>
        && acquired == Acquirable(old(s)) && s.now == old(s.now)
        && s.entry == (if acquired then Entry(Stamp(s.now), s.now + TIMEOUT) else old(s.entry))
        && s.workers == old(s.workers)[p := if acquired then Running(s.now) else Done]
      ensures Quiet(others) ==>
        var e, now := old(s.entry), old(s.now);
        && (acquired <==>
            e.Empty? || e.until <= now || e.value.Unreadable? || now - e.value.at > 15 * 60 * 1_000_000)
        && (acquired ==> s.entry == Entry(Stamp(now), now + 15 * 60 * 1_000_000))
    {
      hide IsRun;
      hide SeenLive;
      hide SeenTaken;
      ghost var began, lo := s.now, |visited|;
      Do(Start(p));
      TryAdd(p, others(1));
      if s.workers[p].Refused? {
        ghost var before := visited;
        LookAgain(p, others);
        SeenSince(visited, |before| - 1, lo - 1, began);
      } else {
        SeenSince(visited, lo, lo - 1, began);
      }
      acquired := s.workers[p].Running?;
    }

    /** The Celery job: nothing without the lock; with it, a run of `d` seconds and whatever others
        do meanwhile, which may raise, and the entry is gone either way. */
    method AggregateMetricsFromSources(p: Pid, others: Weather, d: nat, raises: bool)
      returns (skipped: bool, raised: bool)
      requires Valid() && p !in s.workers
      modifies this
      ensures Valid() && old(visited) <= visited
      ensures p in s.workers && s.workers[p] == Done && raised == (!skipped && raises)
      ensures if skipped then SeenLive(visited, |old(visited)| - 1)
        else SeenTaken(visited, |old(visited)| - 1, old(s.now))
      ensures !skipped ==> s.entry == Empty
      ensures Quiet(others) ==>
        && skipped == !Acquirable(old(s))
        && s.entry == (if skipped then old(s.entry) else Empty) && s.now == old(s.now) + (if skipped then 0 else d)
      ensures Quiet(others) ==>
        var e, now := old(s.entry), old(s.now);
        skipped <==> e.Entry? && now < e.until && e.value.Stamp? && now - e.value.at <= 15 * 60 * 1_000_000
    {
      assert |visited| > 0;
      hide IsRun;
      hide SeenLive;
      hide SeenTaken;
      var acquired := AcquireAggregationLock(p, others);
      if !acquired {
        return true, false;
      }
      ghost var before := visited;
      Others(p, others(6));
      Do(Tick(d));
      Others(p, others(7));
      Do(Finish(p));
      SeenLater(before, visited, |old(visited)| - 1);
      return false, raises;
    }
  }
}
