/**
 * The two delayed lists of tasks.c, whose items hold wrapping wake ticks, as one
 * list of sleepers in unbounded time: the current list is for the epoch the tick
 * count is in, the overflow list for the next.
 */
module DelayedLists {
  import opened Ticks
  import opened Rings
  import opened Schedule

  /** The items of a list with `base` added to their values. */
  function Shifted(s: seq<Sleeper>, base: nat): (r: seq<Sleeper>)
    ensures |r| == |s|
    decreases s
  {
    if s == [] then [] else [Sleeper(s[0].task, s[0].wake + base)] + Shifted(s[1..], base)
  }

  function Sleepers(current: seq<Sleeper>, overflow: seq<Sleeper>, epoch: nat): seq<Sleeper> {
    Shifted(current, epoch * TICK_MOD) + Shifted(overflow, (epoch + 1) * TICK_MOD)
  }

  /** Item values are ticks. */
  ghost predicate Wrapped(s: seq<Sleeper>) {
    forall i :: 0 <= i < |s| ==> s[i].wake < TICK_MOD
  }

  lemma {:induction false} ShiftedAt(s: seq<Sleeper>, base: nat, i: nat)
    requires i < |s|
    ensures Shifted(s, base)[i] == Sleeper(s[i].task, s[i].wake + base)
  {
    if i > 0 {
      ShiftedAt(s[1..], base, i - 1);
    }
  }

  lemma {:induction false} ShiftedInsert(s: seq<Sleeper>, base: nat, x: Sleeper)
    ensures Shifted(Insert(s, x), base) == Insert(Shifted(s, base), Sleeper(x.task, x.wake + base))
    decreases s
  {
    if s != [] && s[0].wake <= x.wake {
      ShiftedInsert(s[1..], base, x);
      assert Insert(s, x)[1..] == Insert(s[1..], x);
    } else {
      assert ([x] + s)[1..] == s;
    }
  }

  lemma {:induction false} ShiftedRemove(s: seq<Sleeper>, base: nat, t: Task)
    ensures Shifted(Remove(s, t), base) == Remove(Shifted(s, base), t)
  {
    if s != [] && s[0].task != t {
      ShiftedRemove(s[1..], base, t);
      assert Remove(s, t)[1..] == Remove(s[1..], t);
    }
  }

  lemma {:induction false} ShiftedTasks(s: seq<Sleeper>, base: nat, t: Task)
    ensures t in TasksOf(Shifted(s, base)) <==> t in TasksOf(s)
  {
    if s != [] {
      ShiftedTasks(s[1..], base, t);
      assert TasksOf(s) == [s[0].task] + TasksOf(s[1..]);
      assert TasksOf(Shifted(s, base)) == [s[0].task] + TasksOf(Shifted(s[1..], base));
    }
  }

  /** An insertion before all of `b` happens in `a`; one after all of `a` happens in `b`. */
  lemma {:induction false} InsertBefore(a: seq<Sleeper>, b: seq<Sleeper>, x: Sleeper)
    requires b != [] ==> b[0].wake > x.wake
    ensures Insert(a + b, x) == Insert(a, x) + b
    decreases a
  {
    if a == [] {
      assert a + b == b;
    } else if a[0].wake <= x.wake {
      InsertBefore(a[1..], b, x);
      assert (a + b)[1..] == a[1..] + b;
    }
  }

  lemma {:induction false} InsertBehind(a: seq<Sleeper>, b: seq<Sleeper>, x: Sleeper)
    requires forall i :: 0 <= i < |a| ==> a[i].wake <= x.wake
    ensures Insert(a + b, x) == a + Insert(b, x)
    decreases a
  {
    if a == [] {
      assert a + b == b;
    } else {
      InsertBehind(a[1..], b, x);
      assert (a + b)[1..] == a[1..] + b;
    }
  }

  lemma {:induction false} RemoveNone(s: seq<Sleeper>, t: Task)
    requires t !in TasksOf(s)
    ensures Remove(s, t) == s
  {
    if s != [] {
      assert TasksOf(s) == [s[0].task] + TasksOf(s[1..]);
      RemoveNone(s[1..], t);
    }
  }

  lemma {:induction false} RemoveFirst(a: seq<Sleeper>, b: seq<Sleeper>, t: Task)
    requires t in TasksOf(a)
    ensures Remove(a + b, t) == Remove(a, t) + b
  {
    assert TasksOf(a) == [a[0].task] + TasksOf(a[1..]);
    if a[0].task != t {
      RemoveFirst(a[1..], b, t);
      assert (a + b)[1..] == a[1..] + b;
    } else {
      assert (a + b)[1..] == a[1..] + b;
    }
  }

  lemma {:induction false} RemoveSecond(a: seq<Sleeper>, b: seq<Sleeper>, t: Task)
    requires t !in TasksOf(a)
    ensures Remove(a + b, t) == a + Remove(b, t)
  {
    if a == [] {
      assert a + b == b;
    } else {
      assert TasksOf(a) == [a[0].task] + TasksOf(a[1..]);
      RemoveSecond(a[1..], b, t);
      assert (a + b)[1..] == a[1..] + b;
    }
  }

  // ---- what the kernel does to the lists -----------------------------------------------------

  /**
   * prvAddCurrentTaskToDelayedList files a task that blocks for `ticks` under a
   * wrapped wake tick, in the overflow list exactly if the sum has wrapped; seen in
   * unbounded time it is inserted at now + ticks.
   */
  lemma FiledByWakeTick(current: seq<Sleeper>, overflow: seq<Sleeper>, now: nat, t: Task, ticks: Tick)
    requires Wrapped(current) && Wrapped(overflow) && ticks > 0
    ensures var wake := Add(Low(now), ticks);
            Insert(Sleepers(current, overflow, Epoch(now)), Sleeper(t, now + ticks)) ==
            if wake < Low(now) then Sleepers(current, Insert(overflow, Sleeper(t, wake)), Epoch(now))
            else Sleepers(Insert(current, Sleeper(t, wake)), overflow, Epoch(now))
  {
    WakeTick(now, ticks);
    FiledIn(current, overflow, Epoch(now), Low(now), Add(Low(now), ticks), Sleeper(t, now + ticks));
  }

  lemma FiledIn(current: seq<Sleeper>, overflow: seq<Sleeper>, epoch: nat, tick: Tick, wake: Tick, x: Sleeper)
    requires Wrapped(current)
    requires x.wake == wake + if wake < tick then (epoch + 1) * TICK_MOD else epoch * TICK_MOD
    ensures Insert(Sleepers(current, overflow, epoch), x) ==
            if wake < tick then Sleepers(current, Insert(overflow, Sleeper(x.task, wake)), epoch)
            else Sleepers(Insert(current, Sleeper(x.task, wake)), overflow, epoch)
  {
    if wake < tick {
      FiledInOverflow(current, overflow, epoch, Sleeper(x.task, wake));
    } else {
      FiledInCurrent(current, overflow, epoch, Sleeper(x.task, wake));
    }
  }

  lemma WakeTick(now: nat, ticks: Tick)
    ensures var wake := Add(Low(now), ticks);
            now + ticks == wake + if wake < Low(now) then (Epoch(now) + 1) * TICK_MOD else Epoch(now) * TICK_MOD
  {
  }

  lemma FiledInOverflow(current: seq<Sleeper>, overflow: seq<Sleeper>, epoch: nat, x: Sleeper)
    requires Wrapped(current)
    ensures Insert(Sleepers(current, overflow, epoch), Sleeper(x.task, x.wake + (epoch + 1) * TICK_MOD))
            == Sleepers(current, Insert(overflow, x), epoch)
  {
    var a := Shifted(current, epoch * TICK_MOD);
    forall i | 0 <= i < |a|
      ensures a[i].wake < (epoch + 1) * TICK_MOD
    {
      ShiftedAt(current, epoch * TICK_MOD, i);
    }
    InsertBehind(a, Shifted(overflow, (epoch + 1) * TICK_MOD), Sleeper(x.task, x.wake + (epoch + 1) * TICK_MOD));
    ShiftedInsert(overflow, (epoch + 1) * TICK_MOD, x);
  }

  lemma FiledInCurrent(current: seq<Sleeper>, overflow: seq<Sleeper>, epoch: nat, x: Sleeper)
    requires x.wake < TICK_MOD
    ensures Insert(Sleepers(current, overflow, epoch), Sleeper(x.task, x.wake + epoch * TICK_MOD))
            == Sleepers(Insert(current, x), overflow, epoch)
  {
    var b := Shifted(overflow, (epoch + 1) * TICK_MOD);
    if b != [] {
      ShiftedAt(overflow, (epoch + 1) * TICK_MOD, 0);
    }
    InsertBefore(Shifted(current, epoch * TICK_MOD), b, Sleeper(x.task, x.wake + epoch * TICK_MOD));
    ShiftedInsert(current, epoch * TICK_MOD, x);
  }

  /** Removal from the one list that holds the task. */
  lemma RemovedFromOne(current: seq<Sleeper>, overflow: seq<Sleeper>, epoch: nat, t: Task)
    ensures Remove(Sleepers(current, overflow, epoch), t) ==
            if t in TasksOf(current) then Sleepers(Remove(current, t), overflow, epoch)
            else Sleepers(current, Remove(overflow, t), epoch)
  {
    var a, b := Shifted(current, epoch * TICK_MOD), Shifted(overflow, (epoch + 1) * TICK_MOD);
    ShiftedTasks(current, epoch * TICK_MOD, t);
    ShiftedRemove(current, epoch * TICK_MOD, t);
    ShiftedRemove(overflow, (epoch + 1) * TICK_MOD, t);
    if t in TasksOf(current) {
      RemoveFirst(a, b, t);
    } else {
      RemoveSecond(a, b, t);
    }
  }

  /** taskSWITCH_DELAYED_LISTS: with nothing left for the old epoch the lists change roles. */
  lemma SwitchedLists(overflow: seq<Sleeper>, epoch: nat)
    ensures Sleepers(overflow, [], epoch + 1) == Sleepers([], overflow, epoch)
  {
    var s := Shifted(overflow, (epoch + 1) * TICK_MOD);
    assert [] + s == s && s + [] == s;
  }

  /** The head of the current list is the first sleeper. */
  lemma HeadOfCurrent(current: seq<Sleeper>, overflow: seq<Sleeper>, epoch: nat)
    requires current != []
    ensures var s := Sleepers(current, overflow, epoch);
            && s != [] && s[0] == Sleeper(current[0].task, current[0].wake + epoch * TICK_MOD)
            && s[1..] == Sleepers(current[1..], overflow, epoch)
  {
  }

  /** With an empty current list the first sleeper, if any, wakes in the next epoch. */
  lemma HeadOfOverflow(overflow: seq<Sleeper>, epoch: nat)
    requires Sleepers([], overflow, epoch) != []
    ensures Sleepers([], overflow, epoch)[0].wake >= (epoch + 1) * TICK_MOD
  {
    ShiftedAt(overflow, (epoch + 1) * TICK_MOD, 0);
  }

  /**
   * What the two lists hold is what the invariant in unbounded time says they hold:
   * every item of the current list wakes after the present tick, every item of the
   * overflow list has a value below it, and so when the tick count is about to wrap
   * the current list is empty.
   */
  lemma ListsAroundTheTick(current: seq<Sleeper>, overflow: seq<Sleeper>, now: nat)
    requires Wrapped(current) && Wrapped(overflow)
    requires var s := Sleepers(current, overflow, Epoch(now));
             forall i :: 0 <= i < |s| ==> now < s[i].wake < now + TICK_MOD
    ensures forall i :: 0 <= i < |current| ==> current[i].wake > Low(now)
    ensures forall i :: 0 <= i < |overflow| ==> overflow[i].wake < Low(now)
    ensures Low(now + 1) == 0 ==> current == []
  {
    var s := Sleepers(current, overflow, Epoch(now));
    forall i | 0 <= i < |current|
      ensures current[i].wake > Low(now)
    {
      ShiftedAt(current, Epoch(now) * TICK_MOD, i);
      assert s[i].wake == current[i].wake + Epoch(now) * TICK_MOD;
    }
    forall i | 0 <= i < |overflow|
      ensures overflow[i].wake < Low(now)
    {
      ShiftedAt(overflow, (Epoch(now) + 1) * TICK_MOD, i);
      assert s[|current| + i].wake == overflow[i].wake + (Epoch(now) + 1) * TICK_MOD;
    }
  }
}
