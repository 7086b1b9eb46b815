/**
 * The tasks and mutexes of a kernel as objects, each change of them a step of
 * MutexProtocol, so that what is proved of its runs holds of the code.
 */
module MutexRuns {
  import opened Ticks
  import opened Rings
  import opened Wrappers
  import opened Mutexes
  import P = MutexProtocol

  datatype System = System(tcbs: map<P.Task, Tcb>, mutexes: map<P.Mutex, Mutex>, maxPriorities: Tick) {

    ghost function Objects(): set<object> {
      (set t | t in tcbs :: tcbs[t]) + (set m | m in mutexes :: mutexes[m])
    }

    ghost function Abs(): P.State
      reads Objects()
    {
      P.State(map t | t in tcbs :: tcbs[t].Value(), map m | m in mutexes :: mutexes[m].Value(), maxPriorities)
    }

    ghost predicate Known(o: Tcb) {
      o.id in tcbs && tcbs[o.id] == o
    }

    /** Every object is there once, and mutexes name no tasks but these. */
    ghost predicate Wired()
      reads Objects()
    {
      && (forall t :: t in tcbs ==> tcbs[t].id == t)
      && (forall m, n :: m in mutexes && n in mutexes && m != n ==> mutexes[m] != mutexes[n])
      && (forall m :: m in mutexes ==>
            && mutexes[m].maxPriorities == maxPriorities
            && (mutexes[m].holder != null ==> Known(mutexes[m].holder))
            && (forall o :: o in mutexes[m].waiters ==> Known(o)))
    }

    ghost predicate Valid()
      reads Objects()
    {
      Wired() && P.Accounted(Abs()) && P.WaitOnce(Abs())
    }
  }

  /** Of all tasks and mutexes at most these two have changed. */
  lemma OnlyTheseChanged(before: P.State, after: P.State, t: P.Task, m: P.Mutex)
    requires after.tcbs.Keys == before.tcbs.Keys && after.sems.Keys == before.sems.Keys
    requires t in before.tcbs && m in before.sems && after.maxPriorities == before.maxPriorities
    requires forall u :: u in before.tcbs && u != t ==> after.tcbs[u] == before.tcbs[u]
    requires forall n :: n in before.sems && n != m ==> after.sems[n] == before.sems[n]
    ensures after == P.State(before.tcbs[t := after.tcbs[t]], before.sems[m := after.sems[m]], before.maxPriorities)
  {
  }

  method Take(s: System, t: P.Task, m: P.Mutex)
    requires s.Wired() && t in s.tcbs && m in s.mutexes && s.mutexes[m].count > 0
    modifies s.tcbs[t], s.mutexes[m]
    ensures s.Wired()
    ensures s.Abs() == P.Take(old(s.Abs()), t, m)
  {
    var _ := s.mutexes[m].TryTake(s.tcbs[t]);
    OnlyTheseChanged(old(s.Abs()), s.Abs(), t, m);
  }

  /** The ranks of the waiters are the same read from the objects and from their values. */
  lemma RanksAgree(s: System, waiters: seq<Tcb>)
    requires s.Wired() && forall o :: o in waiters ==> s.Known(o)
    ensures P.Ranks(s.Abs(), Ids(waiters)) == Ranks(waiters)
  {
    forall i | 0 <= i < |waiters|
      ensures P.Ranks(s.Abs(), Ids(waiters))[i] == Ranks(waiters)[i]
    {
      assert waiters[i] in waiters;
    }
  }

  method Block(s: System, t: P.Task, m: P.Mutex)
    requires s.Wired() && t in s.tcbs && m in s.mutexes
    requires s.mutexes[m].holder != null && s.mutexes[m].holder.base <= s.mutexes[m].holder.priority
    modifies s.mutexes[m], s.mutexes[m].holder
    ensures s.Wired()
    ensures s.Abs() == P.Block(old(s.Abs()), t, m)
  {
    var mutex := s.mutexes[m];
    var _ := mutex.Block(s.tcbs[t]);
    OnlyTheseChanged(old(s.Abs()), s.Abs(), mutex.holder.id, m);
    RanksAgree(s, old(mutex.waiters));
  }

  method Give(s: System, t: P.Task, m: P.Mutex)
    requires s.Wired() && t in s.tcbs && m in s.mutexes
    requires s.mutexes[m].holder == s.tcbs[t] && s.tcbs[t].held > 0
    modifies s.tcbs[t], s.mutexes[m]
    ensures s.Wired()
    ensures s.Abs() == P.Give(old(s.Abs()), t, m)
  {
    var _ := s.mutexes[m].Give();
    OnlyTheseChanged(old(s.Abs()), s.Abs(), t, m);
  }

  method TakeAgain(s: System, m: P.Mutex)
    requires s.Wired() && m in s.mutexes
    modifies s.mutexes[m]
    ensures s.Wired()
    ensures s.Abs() == P.TakeAgain(old(s.Abs()), m)
  {
    s.mutexes[m].TakeAgain();
    assert s.Abs().tcbs == old(s.Abs().tcbs);
    assert s.Abs().sems == old(s.Abs().sems)[m := s.mutexes[m].Value()];
  }

  method GiveRecursive(s: System, t: P.Task, m: P.Mutex)
    requires s.Wired() && t in s.tcbs && m in s.mutexes && s.mutexes[m].recursive
    requires s.mutexes[m].holder != null ==> s.mutexes[m].holder.held > 0 && s.mutexes[m].depth > 0
    modifies s.tcbs[t], s.mutexes[m]
    ensures s.Wired()
    ensures s.Abs() == P.GiveRecursive(old(s.Abs()), t, m)
  {
    ghost var before := s.Abs();
    var _ := s.mutexes[m].GiveRecursive(s.tcbs[t]);
    OnlyTheseChanged(before, s.Abs(), t, m);
    GivenOnce(before, s.Abs(), t, m);
  }

  /** A recursive give, read off the task and the mutex. */
  lemma GivenOnce(before: P.State, after: P.State, t: P.Task, m: P.Mutex)
    requires t in before.tcbs && m in before.sems && t in after.tcbs && m in after.sems
    requires after == P.State(before.tcbs[t := after.tcbs[t]], before.sems[m := after.sems[m]], before.maxPriorities)
    requires var sem := before.sems[m];
             (after.sems[m], after.tcbs[t]) ==
               if sem.holder != Some(t) then (sem, before.tcbs[t])
               else if sem.depth > 1 then (sem.(depth := sem.depth - 1), before.tcbs[t])
               else (P.Given(sem.(depth := 0)), P.Disinherited(before.tcbs[t], before.maxPriorities))
    ensures after == P.GiveRecursive(before, t, m)
  {
  }

  lemma {:induction false} IdsRemoved(s: System, waiters: seq<Tcb>, o: Tcb)
    requires s.Known(o) && forall w :: w in waiters ==> s.Known(w)
    ensures Ids(Removed(waiters, o)) == Removed(Ids(waiters), o.id)
    ensures forall w :: w in Removed(waiters, o) ==> w in waiters
    decreases |waiters|
  {
    if waiters != [] {
      assert Ids(waiters)[1..] == Ids(waiters[1..]);
      if waiters[0] != o {
        assert waiters[0] in waiters;
        IdsRemoved(s, waiters[1..], o);
        assert Ids([waiters[0]] + Removed(waiters[1..], o)) == [waiters[0].id] + Ids(Removed(waiters[1..], o));
      }
    }
  }

  /** The task waits for this mutex, so for no other. */
  lemma TimeOutIsRemoval(b: P.State, t: P.Task, m: P.Mutex)
    requires P.WaitOnce(b) && m in b.sems && t in b.sems[m].waiters
    ensures P.TimeOut(b, t) == b.(sems := b.sems[m := b.sems[m].(waiters := Removed(b.sems[m].waiters, t))])
  {
    forall n | n in b.sems && n != m
      ensures Removed(b.sems[n].waiters, t) == b.sems[n].waiters
    {
      NothingRemoved(b.sems[n].waiters, t);
    }
  }

  lemma NobodyToTimeOut(b: P.State, t: P.Task)
    requires forall m :: m in b.sems ==> t !in b.sems[m].waiters
    ensures P.TimeOut(b, t) == b
  {
    forall m | m in b.sems
      ensures Removed(b.sems[m].waiters, t) == b.sems[m].waiters
    {
      NothingRemoved(b.sems[m].waiters, t);
    }
  }

  /** The task leaves the list of the mutex that its event list item is in. */
  method LeaveList(s: System, t: P.Task, m: P.Mutex)
    requires s.Wired() && P.WaitOnce(s.Abs())
    requires t in s.tcbs && m in s.mutexes && t in Ids(s.mutexes[m].waiters)
    modifies s.mutexes[m]
    ensures s.Wired()
    ensures s.Abs() == P.TimeOut(old(s.Abs()), t)
  {
    var waiters := s.mutexes[m].waiters;
    IdsRemoved(s, waiters, s.tcbs[t]);
    TimeOutIsRemoval(s.Abs(), t, m);
    s.mutexes[m].TimeOut(s.tcbs[t]);
    OnlyTheseChanged(old(s.Abs()), s.Abs(), t, m);
  }

  lemma WaiterIsKnown(s: System, t: P.Task, m: P.Mutex)
    requires s.Wired() && m in s.mutexes && t in Ids(s.mutexes[m].waiters)
    ensures t in s.tcbs
  {
    var waiters := s.mutexes[m].waiters;
    var i :| 0 <= i < |waiters| && Ids(waiters)[i] == t;
    assert waiters[i] in waiters;
  }

  method TimeOut(s: System, t: P.Task)
    requires s.Wired() && P.WaitOnce(s.Abs())
    modifies s.Objects()
    ensures s.Wired()
    ensures s.Abs() == P.TimeOut(old(s.Abs()), t)
  {
    if m :| m in s.mutexes && t in Ids(s.mutexes[m].waiters) {
      WaiterIsKnown(s, t, m);
      LeaveList(s, t, m);
    } else {
      NobodyToTimeOut(s.Abs(), t);
    }
  }

  method AfterTimeOut(s: System, m: P.Mutex)
    requires s.Wired() && m in s.mutexes && s.mutexes[m].count == 0
    requires s.mutexes[m].holder != null && s.mutexes[m].holder.held > 0
    requires forall o :: o in s.mutexes[m].waiters ==> o.eventValue <= s.maxPriorities
    modifies s.mutexes[m].holder
    ensures s.Wired()
    ensures s.Abs() == P.AfterTimeOut(old(s.Abs()), m)
  {
    RanksAgree(s, s.mutexes[m].waiters);
    s.mutexes[m].AfterTimeOut(true);
    OnlyTheseChanged(old(s.Abs()), s.Abs(), s.mutexes[m].holder.id, m);
  }

  method SetPriority(s: System, t: P.Task, p: nat)
    requires s.Wired() && t in s.tcbs
    modifies s.tcbs[t]
    ensures s.Wired()
    ensures var b := old(s.Abs()); s.Abs() == b.(tcbs := b.tcbs[t := P.PrioritySet(b.tcbs[t], p, b.maxPriorities)])
  {
    PrioritySet(s.tcbs[t], p, s.maxPriorities);
    assert s.Abs().sems == old(s.Abs().sems);
    assert s.Abs().tcbs == old(s.Abs().tcbs)[t := s.tcbs[t].Value()];
  }

  /** What the accounts say of the objects of one mutex. */
  lemma Accounts(s: System, m: P.Mutex)
    requires s.Valid() && m in s.mutexes
    ensures var mutex := s.mutexes[m];
            && (mutex.count == 0 <==> mutex.holder != null)
            && (mutex.holder != null ==>
                  && mutex.holder.held > 0 && mutex.holder.base <= mutex.holder.priority
                  && (mutex.recursive ==> mutex.depth > 0))
            && (forall o :: o in mutex.waiters ==> o.eventValue <= s.maxPriorities)
  {
    var b := s.Abs();
    assert P.SemAccounted(b, m);
    forall o | o in s.mutexes[m].waiters
      ensures o.eventValue <= s.maxPriorities
    {
      assert P.TcbAccounted(b, o.id);
    }
    if s.mutexes[m].holder != null {
      assert P.TcbAccounted(b, s.mutexes[m].holder.id);
      assert m in P.HeldBy(b, s.mutexes[m].holder.id);
    }
  }

  method PerformCall(s: System, a: P.Action)
    requires s.Valid() && P.Enabled(s.Abs(), a)
    requires a.DoTake? || a.DoBlock? || a.DoGive? || a.DoTakeAgain? || a.DoGiveRecursive?
    modifies s.Objects()
    ensures s.Wired() && s.Abs() == P.Exec(old(s.Abs()), a)
  {
    Accounts(s, a.mutex);
    match a
    case DoTake(t, m) => Take(s, t, m);
    case DoBlock(t, m) => Block(s, t, m);
    case DoGive(t, m) => Give(s, t, m);
    case DoTakeAgain(t, m) => TakeAgain(s, m);
    case DoGiveRecursive(t, m) => GiveRecursive(s, t, m);
  }

  method PerformOther(s: System, a: P.Action)
    requires s.Valid() && P.Enabled(s.Abs(), a)
    requires a.DoTimeOut? || a.DoAfterTimeOut? || a.DoPrioritySet?
    modifies s.Objects()
    ensures s.Wired() && s.Abs() == P.Exec(old(s.Abs()), a)
  {
    match a
    case DoTimeOut(t) => TimeOut(s, t);
    case DoAfterTimeOut(m) =>
      Accounts(s, m);
      AfterTimeOut(s, m);
    case DoPrioritySet(t, p) => SetPriority(s, t, p);
  }

  method Perform(s: System, a: P.Action)
    requires s.Valid() && P.Enabled(s.Abs(), a)
    modifies s.Objects()
    ensures s.Valid() && s.Abs() == P.Stepped(old(s.Abs()), a)
  {
    P.StepKeepsAccounts(s.Abs(), a);
    P.StepKeepsWaitOnce(s.Abs(), a);
    if a.DoTimeOut? || a.DoAfterTimeOut? || a.DoPrioritySet? {
      PerformOther(s, a);
    } else {
      PerformCall(s, a);
    }
  }

  predicate Possible(b: P.State, actions: seq<P.Action>)
    decreases actions
  {
    actions == [] || (P.Enabled(b, actions[0]) && Possible(P.Stepped(b, actions[0]), actions[1..]))
  }

  /** Any sequence of calls, time-outs and changes of priority takes the objects to the state the protocol reaches. */
  method RunOn(s: System, actions: seq<P.Action>)
    requires s.Valid() && Possible(s.Abs(), actions)
    modifies s.Objects()
    ensures s.Valid() && s.Abs() == P.Run(old(s.Abs()), actions)
    decreases |actions|
  {
    if actions != [] {
      Perform(s, actions[0]);
      RunOn(s, actions[1..]);
    }
  }

  /** Tasks and mutexes as they are created are the start of the runs of the protocol. */
  lemma CreatedIsValid(s: System)
    requires s.Wired() && s.maxPriorities < P.IN_USE
    requires forall t :: t in s.tcbs ==>
               && s.tcbs[t].priority < s.maxPriorities
               && s.tcbs[t].Value() == P.Tcb(s.tcbs[t].priority, s.tcbs[t].priority, 0,
                                             P.Rank(s.maxPriorities, s.tcbs[t].priority))
    requires forall m :: m in s.mutexes ==>
               s.mutexes[m].Value() == P.Sem(s.mutexes[m].recursive, 1, None, 0, [], None)
    ensures s.Valid()
    ensures s.Abs() == P.Created(map t | t in s.tcbs :: s.tcbs[t].priority,
                                 map m | m in s.mutexes :: s.mutexes[m].recursive, s.maxPriorities)
  {
    var b := s.Abs();
    forall t | t in b.tcbs ensures P.TcbAccounted(b, t) { assert P.HeldBy(b, t) == {}; }
  }
}
