/**
 * Time-outs and periodic wake times on the wrapping tick counter: the checks of
 * xTaskCheckForTimeOut and xTaskDelayUntil, proved exact in unbounded time.
 */
module Deadlines {
  import opened Ticks

  // BaseType_t is 32 bits wide, so the overflow count itself wraps.
  const COUNT_MOD: nat := 0x1_0000_0000

  function OverflowCount(now: nat): nat {
    Epoch(now) % COUNT_MOD
  }

  /** TimeOut_t: what vTaskInternalSetTimeOutState records. */
  datatype Snapshot = Snapshot(overflowCount: nat, timeOnEntering: Tick)

  function SnapshotAt(now: nat): Snapshot {
    Snapshot(OverflowCount(now), Low(now))
  }

  datatype Verdict = Expired | Pending(remaining: Tick, restarted: Snapshot)

  /** The decision taken on tick values alone when the delay was not aborted. */
  function Check(s: Snapshot, budget: Tick, tick: Tick, overflows: nat): Verdict {
    var elapsed := Sub(tick, s.timeOnEntering);
    if budget == MAX_DELAY then
      Pending(budget, s)
    else if overflows != s.overflowCount && tick >= s.timeOnEntering then
      Expired
    else if elapsed < budget then
      Pending(budget - elapsed, Snapshot(overflows, tick))
    else
      Expired
  }

  function CheckAt(entry: nat, budget: Tick, now: nat): Verdict {
    Check(SnapshotAt(entry), budget, Low(now), OverflowCount(now))
  }

  /** The calling task's TCB, as far as time-outs look at it. */
  class Caller {
    var delayAborted: bool
  }

  /** A TimeOut_t owned by a blocking call. */
  class TimeOut {
    var overflowCount: nat
    var timeOnEntering: Tick

    ghost function Snap(): Snapshot
      reads this
    {
      Snapshot(overflowCount, timeOnEntering)
    }

    method SetState(tick: Tick, overflows: nat)
      modifies this
      ensures Snap() == Snapshot(overflows, tick)
    {
      overflowCount := overflows;
      timeOnEntering := tick;
    }

    /**
     * xTaskCheckForTimeOut.  An aborted delay counts as expired once and leaves
     * the time-out untouched; a budget of MAX_DELAY never expires.
     */
    method CheckForTimeOut(caller: Caller, tick: Tick, overflows: nat, ticksToWait: Tick)
      returns (expired: bool, remaining: Tick)
      modifies this, caller
      ensures !caller.delayAborted
      ensures old(caller.delayAborted) ==>
                expired && remaining == ticksToWait && Snap() == old(Snap())
      ensures !old(caller.delayAborted) ==>
                match Check(old(Snap()), ticksToWait, tick, overflows)
                case Expired => expired && remaining == 0 && Snap() == old(Snap())
                case Pending(left, s) => !expired && remaining == left && Snap() == s
    {
      var elapsed := Sub(tick, timeOnEntering);
      remaining := ticksToWait;
      if caller.delayAborted {
        caller.delayAborted := false;
        expired := true;
      } else if ticksToWait == MAX_DELAY {
        expired := false;
      } else if overflows != overflowCount && tick >= timeOnEntering {
        expired := true;
        remaining := 0;
      } else if elapsed < ticksToWait {
        remaining := ticksToWait - elapsed;
        SetState(tick, overflows);
        expired := false;
      } else {
        remaining := 0;
        expired := true;
      }
    }
  }

  /**
   * With at most one wrap since the snapshot, expiry is reported exactly when the
   * budget has elapsed in unbounded time, and a check that does not expire moves
   * the entry time forward without moving the deadline.
   */
  lemma CheckExact(entry: nat, budget: Tick, now: nat)
    requires entry <= now && Epoch(now) <= Epoch(entry) + 1
    requires budget != MAX_DELAY
    ensures CheckAt(entry, budget, now).Expired? <==> now >= entry + budget
    ensures var v := CheckAt(entry, budget, now);
            v.Pending? ==> v.restarted == SnapshotAt(now) && now + v.remaining == entry + budget
  {
  }

  /**
   * With any number of wraps the check is exact if and only if less than a full
   * turn of the counter has elapsed, or the residue of the elapsed time already
   * exhausts the budget, or the overflow count differs while the tick has passed
   * the entry tick.
   */
  lemma CheckExactIff(entry: nat, budget: Tick, now: nat)
    requires entry <= now && budget != MAX_DELAY
    ensures (CheckAt(entry, budget, now).Expired? <==> now >= entry + budget)
            <==>
            (|| now < entry + TICK_MOD
             || (now - entry) % TICK_MOD >= budget
             || (OverflowCount(now) != OverflowCount(entry) && Low(now) >= Low(entry)))
  {
    SubIsElapsed(entry, now);
    if now < entry + TICK_MOD {
      assert Epoch(now) <= Epoch(entry) + 1;
      CheckExact(entry, budget, now);
    }
  }

  /** Two wraps can hide an expiry: the check reports time left after a whole turn. */
  lemma TwoWrapsMissADeadline()
    ensures var entry := TICK_MOD - 1;
            var now := 2 * TICK_MOD + 3;
            now >= entry + 10 && CheckAt(entry, 10, now).Pending?
  {
  }

  /**
   * A blocking call re-checks its time-out each time it wakes.  Given the times of
   * those checks, how many of them pass before the first that reports expiry.
   */
  function PassedChecks(s: Snapshot, budget: Tick, times: seq<nat>): (n: nat)
    ensures n <= |times|
    decreases times
  {
    if times == [] then 0 else
    match Check(s, budget, Low(times[0]), OverflowCount(times[0]))
    case Expired => 0
    case Pending(left, s') => 1 + PassedChecks(s', left, times[1..])
  }

  /** Checks happen in order, with at most one wrap between one and the next. */
  ghost predicate Spaced(entry: nat, times: seq<nat>)
    decreases times
  {
    times != [] ==>
      && entry <= times[0]
      && Epoch(times[0]) <= Epoch(entry) + 1
      && Spaced(times[0], times[1..])
  }

  /** Over any run of checks the first to report expiry is the first at or after the deadline. */
  lemma {:induction false} DeadlineKept(entry: nat, budget: Tick, times: seq<nat>)
    requires budget != MAX_DELAY && Spaced(entry, times)
    ensures var n := PassedChecks(SnapshotAt(entry), budget, times);
            && (forall i :: 0 <= i < n ==> times[i] < entry + budget)
            && (n < |times| ==> times[n] >= entry + budget)
    decreases times
  {
    if times != [] {
      var now, rest := times[0], times[1..];
      CheckExact(entry, budget, now);
      match CheckAt(entry, budget, now)
      case Expired =>
      case Pending(left, s) =>
        DeadlineKept(now, left, rest);
        var n := PassedChecks(SnapshotAt(entry), budget, times);
        assert n == 1 + PassedChecks(SnapshotAt(now), left, rest);
        forall i | 0 <= i < n
          ensures times[i] < entry + budget
        {
          if i > 0 {
            assert times[i] == rest[i - 1];
          }
        }
    }
  }

  /** A call that may wait for ever never times out, however often it checks and however often the counter wraps. */
  lemma {:induction false} ForEverNeverExpires(s: Snapshot, times: seq<nat>)
    ensures PassedChecks(s, MAX_DELAY, times) == |times|
    decreases times
  {
    if times != [] {
      ForEverNeverExpires(s, times[1..]);
    }
  }

  /** And it keeps its budget: each check leaves it the maximum. */
  lemma ForEverKeepsBudget(entry: nat, now: nat)
    ensures var v := CheckAt(entry, MAX_DELAY, now); v.Pending? && v.remaining == MAX_DELAY
  {
  }

  // ---- xTaskDelayUntil -------------------------------------------------------

  datatype Delay = Delay(wanted: bool, timeToWake: Tick)

  /** The decision of xTaskDelayUntil on tick values. */
  function DelayUntil(previous: Tick, increment: Tick, tick: Tick): Delay {
    var timeToWake := Add(previous, increment);
    Delay(
      if tick < previous then timeToWake < previous && timeToWake > tick
      else timeToWake < previous || timeToWake > tick,
      timeToWake)
  }

  /**
   * For a previous wake time less than one turn of the counter ago, the task is
   * delayed exactly when its next wake time lies ahead, and the block time handed
   * on is exactly the time left.
   */
  lemma DelayUntilExact(previous: nat, increment: Tick, now: nat)
    requires previous <= now < previous + TICK_MOD && increment > 0
    ensures var d := DelayUntil(Low(previous), increment, Low(now));
            && (d.wanted <==> previous + increment > now)
            && d.timeToWake == Low(previous + increment)
            && (d.wanted ==> Sub(d.timeToWake, Low(now)) == previous + increment - now)
  {
    AddAdvances(previous, increment);
    assert Epoch(previous) <= Epoch(now) <= Epoch(previous) + 1;
    if previous + increment > now {
      SubIsElapsed(now, previous + increment);
    }
  }

  /** However late the caller is, the decision is right if and only if this holds. */
  lemma DelayUntilExactIff(previous: nat, increment: Tick, now: nat)
    requires previous <= now && increment > 0
    ensures (DelayUntil(Low(previous), increment, Low(now)).wanted <==> previous + increment > now)
            <==>
            (now < previous + TICK_MOD || increment <= (now - previous) % TICK_MOD)
  {
    var seen := previous + (now - previous) % TICK_MOD;
    assert Low(seen) == Low(now);
    DelayUntilExact(previous, increment, seen);
  }

  /** A caller a whole turn and three ticks late is delayed for a release that has long passed. */
  lemma VeryLateCallerDelayed()
    ensures var previous, now := 0, TICK_MOD + 3;
            previous + 10 <= now && DelayUntil(Low(previous), 10, Low(now)).wanted
  {
  }

  /** The reference a task holds after calling xTaskDelayUntil at each of `times`. */
  function ReferenceAfter(previous: Tick, increment: Tick, times: seq<nat>): Tick
    decreases times
  {
    if times == [] then previous
    else ReferenceAfter(DelayUntil(previous, increment, Low(times[0])).timeToWake, increment, times[1..])
  }

  /** The k-th release of a periodic task that starts at `start`. */
  function Release(start: nat, increment: Tick, k: nat): nat {
    if k == 0 then start else Release(start, increment, k - 1) + increment
  }

  lemma {:induction false} ReleaseShift(start: nat, increment: Tick, k: nat)
    ensures Release(start + increment, increment, k) == Release(start, increment, k + 1)
  {
    if k > 0 {
      ReleaseShift(start, increment, k - 1);
    }
  }

  /**
   * A periodic loop does not drift: whatever the call times, each less than one
   * turn late, call k waits for exactly release k + 1 or finds it already due.
   */
  lemma {:induction false} PeriodicWithoutDrift(start: nat, increment: Tick, times: seq<nat>, k: nat)
    requires increment > 0 && k < |times|
    requires forall i :: 0 <= i < |times| ==>
      Release(start, increment, i) <= times[i] < Release(start, increment, i) + TICK_MOD
    ensures ReferenceAfter(Low(start), increment, times[..k]) == Low(Release(start, increment, k))
    ensures var d := DelayUntil(ReferenceAfter(Low(start), increment, times[..k]), increment, Low(times[k]));
            && (d.wanted <==> times[k] < Release(start, increment, k + 1))
            && (d.wanted ==> times[k] + Sub(d.timeToWake, Low(times[k])) == Release(start, increment, k + 1))
    decreases k
  {
    if k > 0 {
      assert Release(start, increment, 0) <= times[0] < Release(start, increment, 0) + TICK_MOD;
      DelayUntilExact(start, increment, times[0]);
      var rest := times[1..];
      forall i | 0 <= i < |rest|
        ensures Release(start + increment, increment, i) <= rest[i]
                  < Release(start + increment, increment, i) + TICK_MOD
      {
        ReleaseShift(start, increment, i);
        assert rest[i] == times[i + 1];
      }
      PeriodicWithoutDrift(start + increment, increment, rest, k - 1);
      ReleaseShift(start, increment, k - 1);
      ReleaseShift(start, increment, k);
      assert times[..k][1..] == rest[..k - 1] && times[..k][0] == times[0];
    } else {
      DelayUntilExact(start, increment, times[0]);
    }
  }
}
