/**
 * Which priority each mutex operation leaves its task with, and what it leaves alone:
 * inheritance raises no further than it must, and what was inherited is given back.
 */
module MutexPriorities {
  import opened Ticks
  import opened Rings
  import opened Wrappers
  import opened MutexProtocol

  function Max(a: nat, b: nat): nat {
    if a < b then b else a
  }

  /** No task but `t` has changed. */
  ghost predicate OthersKeep(s: State, u: State, t: Task) {
    && u.tcbs.Keys == s.tcbs.Keys && u.sems.Keys == s.sems.Keys && u.maxPriorities == s.maxPriorities
    && forall v :: v in s.tcbs && v != t ==> u.tcbs[v] == s.tcbs[v]
  }

  /** No mutex but `m` has changed. */
  ghost predicate OtherMutexesKeep(s: State, u: State, m: Mutex) {
    forall n :: n in s.sems && n in u.sems && n != m ==> u.sems[n] == s.sems[n]
  }

  /** Taking a mutex counts it and changes no priority; who waits goes on waiting. */
  lemma TakeKeepsPriorities(s: State, t: Task, m: Mutex)
    requires Accounted(s) && Enabled(s, DoTake(t, m))
    ensures var u := Take(s, t, m);
            && u.sems[m].count == 0 && u.sems[m].holder == Some(t) && u.sems[m].waiters == s.sems[m].waiters
            && u.tcbs[t] == s.tcbs[t].(held := s.tcbs[t].held + 1)
            && OthersKeep(s, u, t) && OtherMutexesKeep(s, u, m)
  {
    assert SemAccounted(s, m);
  }

  /**
   * A task that blocks raises the holder to its own priority if that is higher, and
   * no further; the base priority of the holder and every other task stay as they are.
   */
  lemma BlockRaisesHolder(s: State, t: Task, m: Mutex)
    requires Accounted(s) && Enabled(s, DoBlock(t, m))
    ensures var u, h := Block(s, t, m), s.sems[m].holder.value;
            && h in s.tcbs
            && u.tcbs[h].priority == Max(s.tcbs[h].priority, s.tcbs[t].priority)
            && u.tcbs[h].base == s.tcbs[h].base && u.tcbs[h].held == s.tcbs[h].held
            && u.sems[m].holder == Some(h) && u.sems[m].count == 0
            && (forall v :: v in u.sems[m].waiters <==> v in s.sems[m].waiters || v == t)
            && OthersKeep(s, u, h) && OtherMutexesKeep(s, u, m)
  {
    assert SemAccounted(s, m);
    var u := Block(s, t, m);
    assert forall v :: v in u.sems[m].waiters <==> v in s.sems[m].waiters || v == t;
  }

  /** A task that gives its last mutex runs at its base priority again; one that holds others keeps its priority. */
  lemma GiveRestoresPriority(s: State, t: Task, m: Mutex)
    requires Accounted(s) && Enabled(s, DoGive(t, m))
    ensures var u := Give(s, t, m);
            && u.tcbs[t].held == s.tcbs[t].held - 1 && u.tcbs[t].base == s.tcbs[t].base
            && u.tcbs[t].priority == (if s.tcbs[t].held == 1 then s.tcbs[t].base else s.tcbs[t].priority)
            && OthersKeep(s, u, t) && OtherMutexesKeep(s, u, m)
  {
    assert TcbAccounted(s, t) && m in HeldBy(s, t);
  }

  /** A mutex given back is free, and its first waiter has been woken and waits no more. */
  lemma GiveWakesFirst(s: State, t: Task, m: Mutex)
    requires Accounted(s) && Enabled(s, DoGive(t, m))
    ensures var u, waiters := Give(s, t, m).sems[m], s.sems[m].waiters;
            && u.count == 1 && u.holder == None
            && if waiters == [] then u.waiters == [] && u.woken == None
               else waiters == [waiters[0]] + u.waiters && u.woken == Some(waiters[0])
  {
    assert SemAccounted(s, m);
  }

  /** The highest priority of those who wait for `m`, if any does. */
  ghost predicate IsHighestOf(s: State, m: Mutex, p: nat)
    requires m in s.sems
  {
    && (forall t :: t in s.sems[m].waiters ==> t in s.tcbs && s.tcbs[t].priority <= p)
    && exists t :: t in s.sems[m].waiters && t in s.tcbs && s.tcbs[t].priority == p
  }

  /** The priority read off the waiting list is that of a waiter, or idle if there is none. */
  lemma HighestWaitingIsOne(s: State, m: Mutex)
    requires Safe(s) && m in s.sems
    ensures if s.sems[m].waiters == [] then HighestWaiting(s, m) == 0 else IsHighestOf(s, m, HighestWaiting(s, m))
  {
    var waiters := s.sems[m].waiters;
    HighestWaitingIs(s, m);
    if waiters != [] {
      assert Outranked(s, m);
      assert TcbAccounted(s, waiters[0]) && Ranked(s, waiters[0]);
      assert waiters[0] in waiters && s.tcbs[waiters[0]].priority == HighestWaiting(s, m);
    }
  }

  /**
   * After a time-out the holder of one mutex runs at exactly the higher of its base
   * priority and that of the highest task still waiting for it, lower than before if
   * need be; a holder of several keeps its priority, and so does everybody else.
   */
  lemma TimeOutLowersHolder(s: State, m: Mutex, p: nat)
    requires Safe(s) && Enabled(s, DoAfterTimeOut(m))
    requires if s.sems[m].waiters == [] then p == 0 else IsHighestOf(s, m, p)
    ensures var u, h := AfterTimeOut(s, m), s.sems[m].holder.value;
            && h in s.tcbs
            && u.tcbs[h].priority == (if s.tcbs[h].held == 1 then Max(s.tcbs[h].base, p) else s.tcbs[h].priority)
            && u.tcbs[h].base == s.tcbs[h].base && u.tcbs[h].held == s.tcbs[h].held
            && u.sems == s.sems && OthersKeep(s, u, h)
  {
    HolderDoesNotWait(s, m);
    HighestIs(s, m, p);
  }

  lemma HighestIs(s: State, m: Mutex, p: nat)
    requires Safe(s) && m in s.sems
    requires if s.sems[m].waiters == [] then p == 0 else IsHighestOf(s, m, p)
    ensures HighestWaiting(s, m) == p
  {
    HighestWaitingIsOne(s, m);
  }

  /** The holder's priority is its own or one it owes to a task that still waits for it. */
  lemma NothingOwedToTheTimedOut(s: State, m: Mutex)
    requires Safe(s) && Enabled(s, DoAfterTimeOut(m)) && s.tcbs[s.sems[m].holder.value].held == 1
    ensures var u, h := AfterTimeOut(s, m), s.sems[m].holder.value;
            || u.tcbs[h].priority == s.tcbs[h].base
            || exists t :: t in s.sems[m].waiters && t in s.tcbs && u.tcbs[h].priority == s.tcbs[t].priority
  {
    HighestWaitingIsOne(s, m);
    TimeOutLowersHolder(s, m, HighestWaiting(s, m));
  }

  lemma RanksByPriority(s: State, m: Mutex, t: Task)
    requires Safe(s) && m in s.sems && t in s.tcbs
    ensures var waiters := s.sems[m].waiters;
            && Sorted(Ranks(s, waiters))
            && forall i :: 0 <= i < |waiters| ==>
                 && waiters[i] in s.tcbs
                 && (Ranks(s, waiters)[i] <= s.tcbs[t].eventValue
                     <==> s.tcbs[waiters[i]].priority >= s.tcbs[t].priority)
  {
    var waiters := s.sems[m].waiters;
    assert Outranked(s, m);
    assert TcbAccounted(s, t) && Ranked(s, t);
    forall i | 0 <= i < |waiters|
      ensures waiters[i] in s.tcbs
      ensures Ranks(s, waiters)[i] <= s.tcbs[t].eventValue <==> s.tcbs[waiters[i]].priority >= s.tcbs[t].priority
    {
      assert TcbAccounted(s, waiters[i]) && Ranked(s, waiters[i]);
    }
  }

  lemma InheritKeepsRanks(s: State, t: Task, m: Mutex)
    requires Safe(s) && Enabled(s, DoBlock(t, m)) && s.tcbs[t].held == 0
    ensures var a, waiters := Inherit(s, m, s.tcbs[t].priority), s.sems[m].waiters;
            a.sems == s.sems && a.tcbs[t] == s.tcbs[t] && Ranks(a, waiters) == Ranks(s, waiters)
  {
    HolderDoesNotWait(s, m);
    SameRanks(s, Inherit(s, m, s.tcbs[t].priority), s.sems[m].waiters) by {
      assert Outranked(s, m);
    }
  }

  /** A task that blocks waits behind those of its priority and above, and before all others. */
  lemma BlockQueuesByPriority(s: State, t: Task, m: Mutex)
    requires Safe(s) && Enabled(s, DoBlock(t, m)) && s.tcbs[t].held == 0
    ensures var waiters, p := s.sems[m].waiters, s.tcbs[t].priority;
            exists k :: 0 <= k <= |waiters|
              && Block(s, t, m).sems[m].waiters == waiters[..k] + [t] + waiters[k..]
              && (forall v :: v in waiters[..k] ==> v in s.tcbs && s.tcbs[v].priority >= p)
              && (forall v :: v in waiters[k..] ==> v in s.tcbs && s.tcbs[v].priority < p)
  {
    var waiters := s.sems[m].waiters;
    var k := InsertPosition(Ranks(s, waiters), s.tcbs[t].eventValue);
    RanksByPriority(s, m, t);
    InsertKeepsSorted(Ranks(s, waiters), s.tcbs[t].eventValue);
    BlockedAt(s, t, m, k);
  }

  lemma BlockedAt(s: State, t: Task, m: Mutex, k: nat)
    requires Safe(s) && Enabled(s, DoBlock(t, m)) && s.tcbs[t].held == 0
    requires k == InsertPosition(Ranks(s, s.sems[m].waiters), s.tcbs[t].eventValue)
    ensures var waiters := s.sems[m].waiters;
            Block(s, t, m).sems[m].waiters == waiters[..k] + [t] + waiters[k..]
  {
    InheritKeepsRanks(s, t, m);
  }

  /** A task whose time is up waits for no mutex, and nobody else and no priority is affected. */
  lemma TimeOutTakesOff(s: State, t: Task)
    requires Accounted(s)
    ensures var u := TimeOut(s, t);
            && u.tcbs == s.tcbs && u.sems.Keys == s.sems.Keys
            && forall m, v :: m in s.sems ==> (v in u.sems[m].waiters <==> v in s.sems[m].waiters && v != t)
  {
    forall m | m in s.sems
      ensures forall v :: v in Removed(s.sems[m].waiters, t) <==> v in s.sems[m].waiters && v != t
    {
      assert SemAccounted(s, m);
      RemovedFacts(s.sems[m].waiters, t);
    }
  }

  /**
   * Setting a priority sets the base priority.  The task runs at it unless it uses an
   * inherited priority that is higher.
   */
  lemma PrioritySetIs(t: Tcb, p: nat, maxPriorities: Tick)
    requires t.base <= t.priority
    ensures var u := PrioritySet(t, p, maxPriorities);
            && u.base == p && u.held == t.held
            && u.priority == if t.base == t.priority then p else Max(p, t.priority)
  {
  }

  /** An event list item value that is in use for something else is left alone while priorities change. */
  lemma ValueInUseStays(t: Tcb, p: nat, maxPriorities: Tick)
    requires t.eventValue >= IN_USE
    ensures Inherited(t, p, maxPriorities).eventValue == t.eventValue
    ensures DisinheritedAfterTimeout(t, p, maxPriorities).eventValue == t.eventValue
    ensures PrioritySet(t, p, maxPriorities).eventValue == t.eventValue
  {
  }
}
