/**
 * The instance watcher as its tests pin it down: it polls the scheduler for
 * the watched instances' tasks once per cycle and health-checks every instance
 * that is not finished. An unhealthy check finishes an instance as failed. An
 * instance healthy for `watchSecs` seconds since its first healthy check
 * finishes as healthy. Between cycles the watcher waits on the terminating
 * event, which advances a fake integer clock. The watch result is the set of
 * failed instances, or `None` when the watcher was terminated.
 */
module InstanceWatcher {
  import opened Wrappers

  /** `FakeClock`: time in whole seconds, advanced only by `sleep`. */
  class FakeClock {
    var now: int

    constructor()
      ensures now == 0
    {
      now := 0;
    }

    method Time() returns (t: int)
      ensures t == now
    {
      return now;
    }

    method Sleep(seconds: nat)
      modifies this
      ensures now == old(now) + seconds
    {
      now := now + seconds;
    }
  }

  /** `FakeEvent`: a flag, and a wait that sleeps on the clock for the whole timeout. */
  class FakeEvent {
    const clock: FakeClock
    var isSet: bool

    constructor(clock: FakeClock)
      ensures this.clock == clock && !isSet
    {
      this.clock := clock;
      isSet := false;
    }

    method Wait(seconds: nat)
      modifies clock
      ensures clock.now == old(clock.now) + seconds
    {
      clock.Sleep(seconds);
    }

    method IsSet() returns (b: bool)
      ensures b == isSet
    {
      return isSet;
    }

    method Set()
      modifies this
      ensures isSet
    {
      isSet := true;
    }
  }

  /** A job key: role, environment and name. */
  datatype JobKey = JobKey(role: string, environment: string, name: string)

  datatype ScheduleStatus = Running | OtherStatus(name: string)

  /** The status query of one cycle. */
  datatype TaskQuery = TaskQuery(jobKeys: set<JobKey>, statuses: set<ScheduleStatus>, instanceIds: set<nat>)

  /** The query for the running tasks of exactly the watched instances of the job. */
  function StatusQuery(job: JobKey, ids: set<nat>): (q: TaskQuery)
    ensures q.jobKeys == {job} && q.statuses == {Running} && q.instanceIds == ids
  {
    TaskQuery({job}, {Running}, ids)
  }

  /** `n` copies of one query. */
  function Repeat(q: TaskQuery, n: nat): (r: seq<TaskQuery>)
    ensures |r| == n && forall k :: 0 <= k < n ==> r[k] == q
  {
    seq(n, _ => q)
  }

  lemma RepeatSnoc(q: TaskQuery, n: nat)
    ensures Repeat(q, n) + [q] == Repeat(q, n + 1)
  {
  }

  /** The cycle at which an instance healthy since the first cycle has been healthy for `watchSecs`: the least `p` with `p * interval >= watchSecs`. */
  function Stop(watchSecs: nat, interval: nat): nat
    requires interval > 0
    decreases watchSecs
  {
    if watchSecs == 0 then 0 else if watchSecs <= interval then 1 else 1 + Stop(watchSecs - interval, interval)
  }

  /** Cycle `p` is far enough from the first one exactly from cycle `Stop` on. */
  lemma {:induction false} ElapsedEnough(watchSecs: nat, interval: nat, p: nat)
    requires interval > 0
    ensures p * interval >= watchSecs <==> p >= Stop(watchSecs, interval)
    decreases watchSecs
  {
    if watchSecs > interval && p > 0 {
      ElapsedEnough(watchSecs - interval, interval, p - 1);
      assert p * interval == (p - 1) * interval + interval;
    }
  }

  /**
   * The cycle at which instance `i` finishes, looking from cycle `k` on: the
   * first cycle up to `stop` whose health check fails, else `stop`.
   * `health(i, k)` is the result of the check of instance `i` at cycle `k`.
   */
  function FinishFrom(health: (nat, nat) -> bool, i: nat, k: nat, stop: nat): (r: nat)
    requires k <= stop
    ensures k <= r <= stop
    ensures r < stop ==> !health(i, r)
    decreases stop - k
  {
    if !health(i, k) || k == stop then k else FinishFrom(health, i, k + 1, stop)
  }

  /** Every check before the finishing cycle is healthy. */
  lemma {:induction false} FinishFromHealthy(health: (nat, nat) -> bool, i: nat, k: nat, stop: nat)
    requires k <= stop
    ensures forall j :: k <= j < FinishFrom(health, i, k, stop) ==> health(i, j)
    decreases stop - k
  {
    if health(i, k) && k < stop {
      FinishFromHealthy(health, i, k + 1, stop);
    }
  }

  /** A healthy stretch of checks from `k` to `m` does not move the finishing cycle. */
  lemma {:induction false} FinishFromSkip(health: (nat, nat) -> bool, i: nat, k: nat, m: nat, stop: nat)
    requires k <= m <= stop
    requires forall j :: k <= j < m ==> health(i, j)
    ensures FinishFrom(health, i, k, stop) == FinishFrom(health, i, m, stop)
    decreases m - k
  {
    if k < m {
      FinishFromSkip(health, i, k + 1, m, stop);
    }
  }

  function Finish(health: (nat, nat) -> bool, i: nat, stop: nat): nat {
    FinishFrom(health, i, 0, stop)
  }

  /** An instance fails when the check at its finishing cycle is unhealthy. */
  predicate Failed(health: (nat, nat) -> bool, i: nat, stop: nat) {
    !health(i, Finish(health, i, stop))
  }

  /** An instance fails exactly when one of its checks up to `stop` is unhealthy. */
  lemma FailedIff(health: (nat, nat) -> bool, i: nat, stop: nat)
    ensures Failed(health, i, stop) <==> exists k :: 0 <= k <= stop && !health(i, k)
  {
    var f := Finish(health, i, stop);
    FinishFromHealthy(health, i, 0, stop);
    if !Failed(health, i, stop) {
      assert f == stop;
      forall k | 0 <= k <= stop
        ensures health(i, k)
      {
        if k < f {
          assert health(i, k);
        }
      }
    }
  }

  /** The first unhealthy check finishes the instance: it is not checked again. */
  lemma FinishAtFirstFailure(health: (nat, nat) -> bool, i: nat, stop: nat, k: nat)
    requires k <= stop && !health(i, k)
    requires forall j :: 0 <= j < k ==> health(i, j)
    ensures Finish(health, i, stop) == k && Failed(health, i, stop)
  {
    FinishFromSkip(health, i, 0, k, stop);
  }

  /** An instance that never fails a check finishes, healthy, at cycle `stop`. */
  lemma FinishWhenHealthy(health: (nat, nat) -> bool, i: nat, stop: nat)
    requires forall k :: 0 <= k <= stop ==> health(i, k)
    ensures Finish(health, i, stop) == stop && !Failed(health, i, stop)
  {
    FinishFromSkip(health, i, 0, stop, stop);
  }

  /** The set of failed instances. */
  function FailedSet(ids: set<nat>, health: (nat, nat) -> bool, stop: nat): (r: set<nat>)
    ensures forall i :: i in r <==> i in ids && Failed(health, i, stop)
  {
    set i | i in ids && Failed(health, i, stop)
  }

  /**
   * What the watcher knows of one instance: whether it has finished (and then
   * whether healthy), the time of its first healthy check, and the number of
   * health checks made so far.
   */
  datatype Status = Status(finished: Option<bool>, birthday: Option<int>, checks: nat)

  /** A fresh instance: unfinished, never healthy, never checked. */
  const Unseen := Status(None, None, 0)

  /**
   * One health check of an unfinished instance at time `now`: an unhealthy
   * result finishes it as failed; a healthy one records the first healthy time
   * and finishes it as healthy once `watchSecs` have passed since then. A
   * finished instance is not checked.
   */
  function Check(s: Status, healthy: bool, now: int, watchSecs: nat): Status {
    if s.finished.Some? then s
    else if !healthy then Status(Some(false), s.birthday, s.checks + 1)
    else
      var born := if s.birthday.Some? then s.birthday.value else now;
      Status(if now - born >= watchSecs then Some(true) else None, Some(born), s.checks + 1)
  }

  /**
   * The status of instance `i` after `cycles` cycles, the first at time
   * `start`: finished iff its finishing cycle has passed, first healthy at
   * `start` iff its first check was healthy, and checked at every cycle up to
   * the one it finished at.
   */
  ghost function Expected(health: (nat, nat) -> bool, i: nat, stop: nat, cycles: nat, start: int): Status {
    var f := Finish(health, i, stop);
    Status(
      if f < cycles then Some(!Failed(health, i, stop)) else None,
      if cycles > 0 && health(i, 0) then Some(start) else None,
      if f < cycles then f + 1 else cycles)
  }

  /** The clock time after `cycles` cycles starting at `start`: the last one at `start + (cycles - 1) * interval`. */
  function CycleTime(start: int, interval: nat, cycles: nat): int {
    if cycles == 0 then start else start + (cycles - 1) * interval
  }

  lemma NextCycleTime(p: nat, interval: nat)
    ensures p * interval + interval == (p + 1) * interval
  {
  }

  /** The expected statuses of all the watched instances. */
  ghost function Snapshot(ids: set<nat>, health: (nat, nat) -> bool, stop: nat, cycles: nat, start: int): map<nat, Status> {
    map i | i in ids :: Expected(health, i, stop, cycles, start)
  }

  /** Checking an instance in cycle `cycle` takes its expected status to that after the cycle. */
  lemma CheckAdvances(health: (nat, nat) -> bool, i: nat, watchSecs: nat, interval: nat, cycle: nat, start: int)
    requires interval > 0
    ensures var stop := Stop(watchSecs, interval);
      var s := Expected(health, i, stop, cycle, start);
      Check(s, health(i, s.checks), start + cycle * interval, watchSecs) == Expected(health, i, stop, cycle + 1, start)
  {
    ElapsedEnough(watchSecs, interval, cycle);
    FinishFromHealthy(health, i, 0, Stop(watchSecs, interval));
  }

  /** `InstanceWatcher`: the job it watches, its timing, its clock and its terminating event. */
  class InstanceWatcher {
    const job: JobKey
    const watchSecs: nat
    const interval: nat
    const clock: FakeClock
    const event: FakeEvent

    constructor(job: JobKey, watchSecs: nat, interval: nat, clock: FakeClock, event: FakeEvent)
      ensures this.job == job && this.watchSecs == watchSecs && this.interval == interval
      ensures this.clock == clock && this.event == event
    {
      this.job := job;
      this.watchSecs := watchSecs;
      this.interval := interval;
      this.clock := clock;
      this.event := event;
    }

    /** `terminate`: set the terminating event. */
    method Terminate()
      modifies event
      ensures event.isSet
    {
      event.Set();
    }

    /**
     * One cycle, number `cycle`, at clock time `now`: check every unfinished
     * instance once. `health(i, k)` is the outcome of instance `i`'s `k`-th
     * health check.
     */
    method Cycle(ids: set<nat>, health: (nat, nat) -> bool, cycle: nat, now: int, ghost start: int,
                 states: map<nat, Status>)
      returns (states': map<nat, Status>)
      requires interval > 0 && now == start + cycle * interval
      requires states == Snapshot(ids, health, Stop(watchSecs, interval), cycle, start)
      ensures states' == Snapshot(ids, health, Stop(watchSecs, interval), cycle + 1, start)
    {
      ghost var stop := Stop(watchSecs, interval);
      states' := states;
      var todo := ids;
      while todo != {}
        invariant todo <= ids && states'.Keys == ids
        invariant forall i :: i in ids ==>
          states'[i] == Expected(health, i, stop, if i in todo then cycle else cycle + 1, start)
        decreases |todo|
      {
        var i :| i in todo;
        CheckAdvances(health, i, watchSecs, interval, cycle, start);
        var s := states'[i];
        if s.finished.None? {
          s := Check(s, health(i, s.checks), now, watchSecs);
        }
        assert s == Expected(health, i, stop, cycle + 1, start);
        states' := states'[i := s];
        todo := todo - {i};
      }
      assert states' == Snapshot(ids, health, stop, cycle + 1, start);
    }

    /**
     * The cycles of `watch` once it has started: query, check every unfinished
     * instance, and, while one is unfinished, wait an interval and go again.
     */
    method Cycles(ids: set<nat>, health: (nat, nat) -> bool)
      returns (states: map<nat, Status>, polls: nat, queries: seq<TaskQuery>)
      requires interval > 0 && event.clock == clock
      modifies clock
      ensures polls >= 1 && states == Snapshot(ids, health, Stop(watchSecs, interval), polls, old(clock.now))
      ensures forall i :: i in ids ==> Finish(health, i, Stop(watchSecs, interval)) < polls
      ensures polls > 1 ==> exists i :: i in ids && Finish(health, i, Stop(watchSecs, interval)) == polls - 1
      ensures queries == Repeat(StatusQuery(job, ids), polls)
      ensures clock.now == old(clock.now) + (polls - 1) * interval
    {
      ghost var stop := Stop(watchSecs, interval);
      ghost var start := clock.now;
      states := map i | i in ids :: Unseen;
      assert states == Snapshot(ids, health, stop, 0, start);
      polls, queries := 0, [];
      while polls == 0 || !AllFinished(states)
        invariant polls <= stop + 1 && states == Snapshot(ids, health, stop, polls, start)
        invariant polls > 1 ==> exists i :: i in ids && Finish(health, i, stop) >= polls - 1
        invariant queries == Repeat(StatusQuery(job, ids), polls)
        invariant clock.now == CycleTime(start, interval, polls)
        decreases stop + 1 - polls
      {
        if polls > 0 {
          Unfinished(ids, health, stop, polls, start);
        }
        RepeatSnoc(StatusQuery(job, ids), polls);
        queries := queries + [StatusQuery(job, ids)];
        states := Step(ids, health, polls, start, states);
        polls := polls + 1;
      }
      Finished(ids, health, stop, polls, start);
    }

    /** Cycle number `cycle` of `watch`, after waiting one interval when it is not the first. */
    method Step(ids: set<nat>, health: (nat, nat) -> bool, cycle: nat, ghost start: int, states: map<nat, Status>)
      returns (states': map<nat, Status>)
      requires interval > 0 && event.clock == clock
      requires clock.now == CycleTime(start, interval, cycle)
      requires states == Snapshot(ids, health, Stop(watchSecs, interval), cycle, start)
      modifies clock
      ensures clock.now == CycleTime(start, interval, cycle + 1)
      ensures states' == Snapshot(ids, health, Stop(watchSecs, interval), cycle + 1, start)
    {
      if cycle > 0 {
        event.Wait(interval);
        NextCycleTime(cycle - 1, interval);
      }
      var now := clock.Time();
      states' := Cycle(ids, health, cycle, now, start, states);
    }

    /**
     * `watch(ids, health_check)`: `None` at once when terminated; otherwise
     * cycle until every instance has finished and return the failed ones.
     * `health(i, k)` is the outcome of instance `i`'s `k`-th health check;
     * `polls` counts the status queries, `queries` lists them and `checks[i]`
     * counts the health checks of instance `i`.
     */
    method Watch(ids: set<nat>, health: (nat, nat) -> bool)
      returns (r: Option<set<nat>>, polls: nat, queries: seq<TaskQuery>, checks: map<nat, nat>)
      requires interval > 0 && event.clock == clock
      modifies clock
      ensures event.isSet ==> r.None? && polls == 0 && queries == [] && clock.now == old(clock.now)
      ensures !event.isSet ==>
        var stop := Stop(watchSecs, interval);
        r == Some(FailedSet(ids, health, stop)) &&
        polls >= 1 && queries == Repeat(StatusQuery(job, ids), polls) &&
        (forall i :: i in ids ==> Finish(health, i, stop) < polls) &&
        (ids != {} ==> exists i :: i in ids && Finish(health, i, stop) == polls - 1) &&
        (ids == {} ==> polls == 1) &&
        checks.Keys == ids && (forall i :: i in ids ==> checks[i] == Finish(health, i, stop) + 1) &&
        clock.now == old(clock.now) + (polls - 1) * interval
    {
      r, polls, queries, checks := None, 0, [], map[];
      var terminated := event.IsSet();
      if terminated {
        return;
      }
      var states;
      states, polls, queries := Cycles(ids, health);
      r := Some(FailedOf(states));
      checks := ChecksOf(states);
      ghost var stop := Stop(watchSecs, interval);
      FinalStatus(ids, health, stop, polls, old(clock.now), states);
      if ids != {} && polls == 1 {
        var some :| some in ids;
        assert Finish(health, some, stop) == 0;
      }
    }
  }

  /** Every instance has finished. */
  predicate AllFinished(states: map<nat, Status>) {
    forall i :: i in states ==> states[i].finished.Some?
  }

  /** While an instance is unfinished, its finishing cycle is still ahead. */
  lemma Unfinished(ids: set<nat>, health: (nat, nat) -> bool, stop: nat, cycles: nat, start: int)
    requires !AllFinished(Snapshot(ids, health, stop, cycles, start))
    ensures exists i :: i in ids && Finish(health, i, stop) >= cycles
  {
    var w :| w in ids && Snapshot(ids, health, stop, cycles, start)[w].finished.None?;
  }

  /** Once all have finished, every finishing cycle is behind. */
  lemma Finished(ids: set<nat>, health: (nat, nat) -> bool, stop: nat, cycles: nat, start: int)
    requires AllFinished(Snapshot(ids, health, stop, cycles, start))
    ensures forall i :: i in ids ==> Finish(health, i, stop) < cycles
  {
    forall i | i in ids
      ensures Finish(health, i, stop) < cycles
    {
      assert Snapshot(ids, health, stop, cycles, start)[i].finished.Some?;
    }
  }

  /** The instances whose status says they finished unhealthy. */
  function FailedOf(states: map<nat, Status>): set<nat> {
    set i | i in states && states[i].finished == Some(false)
  }

  /** The number of checks of every instance. */
  function ChecksOf(states: map<nat, Status>): map<nat, nat> {
    map i | i in states :: states[i].checks
  }

  /** Once every instance has finished, the statuses record the failed set and each instance's number of checks. */
  lemma FinalStatus(ids: set<nat>, health: (nat, nat) -> bool, stop: nat, polls: nat, start: int,
                    states: map<nat, Status>)
    requires states == Snapshot(ids, health, stop, polls, start)
    requires forall i :: i in ids ==> Finish(health, i, stop) < polls
    ensures FailedOf(states) == FailedSet(ids, health, stop)
    ensures ChecksOf(states).Keys == ids
    ensures forall i :: i in ids ==> ChecksOf(states)[i] == Finish(health, i, stop) + 1
  {
  }

  /** `ceil(watch_secs / interval) + 1`: the number of polls when every instance stays healthy. */
  lemma AllHealthyPolls(ids: set<nat>, health: (nat, nat) -> bool, watchSecs: nat, interval: nat)
    requires interval > 0 && ids != {}
    requires forall i, k :: i in ids ==> health(i, k)
    ensures forall i :: i in ids ==> Finish(health, i, Stop(watchSecs, interval)) == Stop(watchSecs, interval)
    ensures FailedSet(ids, health, Stop(watchSecs, interval)) == {}
  {
    forall i | i in ids
      ensures Finish(health, i, Stop(watchSecs, interval)) == Stop(watchSecs, interval)
    {
      FinishWhenHealthy(health, i, Stop(watchSecs, interval));
    }
  }

  /** With a 50-second watch and a 3-second interval the healthy run takes `ceil(50/3) + 1 = 18` polls. */
  lemma ExpectedCycles()
    ensures Stop(50, 3) + 1 == 18
  {
    ElapsedEnough(50, 3, 16);
    ElapsedEnough(50, 3, 17);
  }

  /** When every instance fails its first check, the watch ends after one poll and reports all of them. */
  lemma AllFailFirst(ids: set<nat>, health: (nat, nat) -> bool, stop: nat)
    requires forall i :: i in ids ==> !health(i, 0)
    ensures forall i :: i in ids ==> Finish(health, i, stop) == 0
    ensures FailedSet(ids, health, stop) == ids
  {
  }

  /** A failure at the final cycle is still reported. */
  lemma FailureAtLastCycle(health: (nat, nat) -> bool, i: nat, stop: nat)
    requires forall k :: 0 <= k < stop ==> health(i, k)
    requires !health(i, stop)
    ensures Finish(health, i, stop) == stop && Failed(health, i, stop)
  {
    FinishAtFirstFailure(health, i, stop, stop);
  }

  /** One failing instance among healthy ones is reported alone. */
  lemma SingleFailure(ids: set<nat>, health: (nat, nat) -> bool, stop: nat, bad: nat)
    requires bad in ids && !health(bad, 0)
    requires forall i, k :: i in ids && i != bad ==> health(i, k)
    ensures FailedSet(ids, health, stop) == {bad}
  {
    forall i | i in ids && i != bad
      ensures !Failed(health, i, stop)
    {
      FinishWhenHealthy(health, i, stop);
    }
  }
}
