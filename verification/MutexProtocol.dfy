/**
 * Mutexes with priority inheritance as a state machine: queue.c's mutex operations
 * together with the inheritance functions of tasks.c.  A step is one critical
 * section, or one stretch with the scheduler suspended.
 */
module MutexProtocol {
  import opened Ticks
  import opened Rings
  import opened Wrappers

  type Task = nat
  type Mutex = nat

  /** A TCB: uxBasePriority, uxPriority, uxMutexesHeld and the value of its event list item. */
  datatype Tcb = Tcb(base: nat, priority: nat, held: nat, eventValue: Tick)

  /** A mutex.  `woken` is the waiter its last give has woken. */
  datatype Sem = Sem(recursive: bool, count: nat, holder: Option<Task>, depth: nat,
                     waiters: seq<Task>, woken: Option<Task>)

  datatype State = State(tcbs: map<Task, Tcb>, sems: map<Mutex, Sem>, maxPriorities: Tick)

  // ---- the inheritance functions of tasks.c -------------------------------------------------

  /** The rank of a priority in an event list: the higher the priority, the lower the value. */
  function Rank(maxPriorities: Tick, priority: nat): Tick {
    if priority <= maxPriorities then maxPriorities - priority else 0
  }

  // taskEVENT_LIST_ITEM_VALUE_IN_USE: set while the value serves an event group.
  const IN_USE: Tick := 0x8000_0000

  /** The rank is not touched while the value is used for something else. */
  function Reranked(t: Tcb, priority: nat, maxPriorities: Tick): Tick {
    if t.eventValue < IN_USE then Rank(maxPriorities, priority) else t.eventValue
  }

  /** xTaskPriorityInherit: what becomes of the holder when a task of priority `p` is about to wait. */
  function Inherited(holder: Tcb, p: nat, maxPriorities: Tick): Tcb {
    if holder.priority < p then holder.(priority := p, eventValue := Reranked(holder, p, maxPriorities)) else holder
  }

  /** xTaskPriorityDisinherit. */
  function Disinherited(holder: Tcb, maxPriorities: Tick): Tcb {
    var t := holder.(held := if holder.held > 0 then holder.held - 1 else 0);
    if t.priority != t.base && t.held == 0
    then t.(priority := t.base, eventValue := Rank(maxPriorities, t.base))
    else t
  }

  /** vTaskPriorityDisinheritAfterTimeout. */
  function DisinheritedAfterTimeout(holder: Tcb, highestWaiting: nat, maxPriorities: Tick): Tcb {
    var p := if holder.base < highestWaiting then highestWaiting else holder.base;
    if holder.priority != p && holder.held == 1
    then holder.(priority := p, eventValue := Reranked(holder, p, maxPriorities))
    else holder
  }

  /** vTaskPrioritySet, as far as the TCB goes. */
  function PrioritySet(t: Tcb, p: nat, maxPriorities: Tick): Tcb {
    if t.base == p then t
    else
      Tcb(p, if t.base == t.priority || p > t.priority then p else t.priority, t.held, Reranked(t, p, maxPriorities))
  }

  /**
   * Setting a priority leaves the task ranked in event lists by the priority it
   * runs at if and only if the task was not using an inherited priority above the
   * new one: the rank is set from the new base priority in any case, unless the
   * value is in use, and then it stays.
   */
  lemma PrioritySetRanksIff(t: Tcb, p: nat, maxPriorities: Tick)
    requires t.base <= t.priority < maxPriorities && p < maxPriorities && p != t.base
    ensures var u := PrioritySet(t, p, maxPriorities);
            && u.base <= u.priority
            && (t.eventValue >= IN_USE ==> u.eventValue == t.eventValue)
            && (t.eventValue < IN_USE ==>
                  (u.eventValue == Rank(maxPriorities, u.priority) <==> t.base == t.priority || p >= t.priority))
  {
  }

  // ---- the operations -------------------------------------------------------------------------

  /** The values of a waiting list's items. */
  function Ranks(s: State, waiters: seq<Task>): (r: seq<Tick>)
    ensures |r| == |waiters|
  {
    seq(|waiters|, i requires 0 <= i < |waiters| => if waiters[i] in s.tcbs then s.tcbs[waiters[i]].eventValue else 0)
  }

  function Taken(sem: Sem, t: Task): Sem
    requires sem.count > 0
  {
    sem.(count := sem.count - 1, holder := Some(t), depth := if sem.recursive then sem.depth + 1 else sem.depth)
  }

  /** A task of rank `rank` comes before the first waiter of a higher value. */
  function Queued(sem: Sem, t: Task, ranks: seq<Tick>, rank: Tick): Sem
    requires |ranks| == |sem.waiters|
  {
    var k := InsertPosition(ranks, rank);
    sem.(waiters := sem.waiters[..k] + [t] + sem.waiters[k..])
  }

  /** A mutex given back: the first waiter is woken. */
  function Given(sem: Sem): Sem {
    sem.(count := sem.count + 1, holder := None,
         waiters := if sem.waiters == [] then [] else sem.waiters[1..],
         woken := if sem.waiters == [] then None else Some(sem.waiters[0]))
  }

  /** xQueueSemaphoreTake of a mutex that is free. */
  function Take(s: State, t: Task, m: Mutex): State
    requires t in s.tcbs && m in s.sems && s.sems[m].count > 0
  {
    s.(sems := s.sems[m := Taken(s.sems[m], t)],
       tcbs := s.tcbs[t := s.tcbs[t].(held := s.tcbs[t].held + 1)])
  }

  /** xTaskPriorityInherit applied to the holder of a mutex. */
  function Inherit(s: State, m: Mutex, p: nat): State
    requires m in s.sems
  {
    match s.sems[m].holder
    case Some(h) => if h in s.tcbs then s.(tcbs := s.tcbs[h := Inherited(s.tcbs[h], p, s.maxPriorities)]) else s
    case None => s
  }

  /** vTaskPlaceOnEventList: queued by rank, behind its equals. */
  function Enqueue(s: State, t: Task, m: Mutex): State
    requires t in s.tcbs && m in s.sems
  {
    s.(sems := s.sems[m := Queued(s.sems[m], t, Ranks(s, s.sems[m].waiters), s.tcbs[t].eventValue)])
  }

  /** xQueueSemaphoreTake of a mutex that is held: the holder inherits, then the task waits. */
  function Block(s: State, t: Task, m: Mutex): State
    requires t in s.tcbs && m in s.sems
  {
    Enqueue(Inherit(s, m, s.tcbs[t].priority), t, m)
  }

  /** xQueueGenericSend on a mutex by its holder: disinherit, free it, wake the first waiter. */
  function Give(s: State, t: Task, m: Mutex): State
    requires t in s.tcbs && m in s.sems
  {
    s.(tcbs := s.tcbs[t := Disinherited(s.tcbs[t], s.maxPriorities)],
       sems := s.sems[m := Given(s.sems[m])])
  }

  /** xQueueTakeMutexRecursive by the holder. */
  function TakeAgain(s: State, m: Mutex): State
    requires m in s.sems
  {
    s.(sems := s.sems[m := s.sems[m].(depth := s.sems[m].depth + 1)])
  }

  /** xQueueGiveMutexRecursive: the mutex is given once the count has unwound; others cannot give it. */
  function GiveRecursive(s: State, t: Task, m: Mutex): State
    requires t in s.tcbs && m in s.sems
  {
    var sem := s.sems[m];
    if sem.holder != Some(t) then s
    else
      var s' := s.(sems := s.sems[m := sem.(depth := if sem.depth > 0 then sem.depth - 1 else 0)]);
      if s'.sems[m].depth == 0 then Give(s', t, m) else s'
  }

  /** The time-out of a waiter takes it off every list. */
  function TimeOut(s: State, t: Task): State {
    s.(sems := map m | m in s.sems :: s.sems[m].(waiters := Removed(s.sems[m].waiters, t)))
  }

  /** prvGetDisinheritPriorityAfterTimeout. */
  function HighestWaiting(s: State, m: Mutex): nat
    requires m in s.sems
  {
    var waiters := s.sems[m].waiters;
    if waiters == [] || Ranks(s, waiters)[0] > s.maxPriorities then 0
    else s.maxPriorities - Ranks(s, waiters)[0]
  }

  /** What a task whose wait has timed out does to the holder, if it had passed its priority on. */
  function AfterTimeOut(s: State, m: Mutex): State
    requires m in s.sems
  {
    match s.sems[m].holder
    case Some(h) =>
      if h in s.tcbs
      then s.(tcbs := s.tcbs[h := DisinheritedAfterTimeout(s.tcbs[h], HighestWaiting(s, m), s.maxPriorities)])
      else s
    case None => s
  }

  // ---- the machine ----------------------------------------------------------------------------

  datatype Action =
    | DoTake(task: Task, mutex: Mutex)
    | DoBlock(task: Task, mutex: Mutex)
    | DoGive(task: Task, mutex: Mutex)
    | DoTakeAgain(task: Task, mutex: Mutex)
    | DoGiveRecursive(task: Task, mutex: Mutex)
    | DoTimeOut(task: Task)
    | DoAfterTimeOut(mutex: Mutex)
    | DoPrioritySet(task: Task, priority: nat)

  predicate Runs(s: State, t: Task) {
    t in s.tcbs && forall m :: m in s.sems ==> t !in s.sems[m].waiters
  }

  /** Mutexes are given by their holders only, the recursive ones through the recursive calls. */
  predicate Enabled(s: State, a: Action) {
    match a
    case DoTake(t, m) => Runs(s, t) && m in s.sems && s.sems[m].count > 0
    case DoBlock(t, m) => Runs(s, t) && m in s.sems && s.sems[m].count == 0
    case DoGive(t, m) => Runs(s, t) && m in s.sems && s.sems[m].holder == Some(t) && !s.sems[m].recursive
    case DoTakeAgain(t, m) => Runs(s, t) && m in s.sems && s.sems[m].holder == Some(t) && s.sems[m].recursive
    case DoGiveRecursive(t, m) => Runs(s, t) && m in s.sems && s.sems[m].recursive
    case DoTimeOut(_) => true
    case DoAfterTimeOut(m) => m in s.sems && s.sems[m].count == 0
    case DoPrioritySet(t, p) => t in s.tcbs && p < s.maxPriorities
  }

  function Exec(s: State, a: Action): State
    requires Enabled(s, a)
  {
    match a
    case DoTake(t, m) => Take(s, t, m)
    case DoBlock(t, m) => Block(s, t, m)
    case DoGive(t, m) => Give(s, t, m)
    case DoTakeAgain(_, m) => TakeAgain(s, m)
    case DoGiveRecursive(t, m) => GiveRecursive(s, t, m)
    case DoTimeOut(t) => TimeOut(s, t)
    case DoAfterTimeOut(m) => AfterTimeOut(s, m)
    case DoPrioritySet(t, p) => s.(tcbs := s.tcbs[t := PrioritySet(s.tcbs[t], p, s.maxPriorities)])
  }

  // ---- accounting -----------------------------------------------------------------------------

  ghost function HeldBy(s: State, t: Task): set<Mutex> {
    set m | m in s.sems && s.sems[m].holder == Some(t)
  }

  /** What a TCB says agrees with the mutexes that name the task their holder. */
  ghost predicate TcbAccounted(s: State, t: Task)
    requires t in s.tcbs
  {
    var tcb := s.tcbs[t];
    && tcb.base <= tcb.priority < s.maxPriorities
    && 0 < tcb.eventValue <= s.maxPriorities < IN_USE
    && tcb.held == |HeldBy(s, t)|
    && (tcb.held == 0 ==> tcb.base == tcb.priority)
  }

  ghost predicate SemAccounted(s: State, m: Mutex)
    requires m in s.sems
  {
    var sem := s.sems[m];
    && sem.count <= 1
    && (sem.count == 1 <==> sem.holder == None)
    && (sem.holder.Some? ==> sem.holder.value in s.tcbs)
    && (sem.depth > 0 <==> sem.recursive && sem.holder.Some?)
    && Distinct(sem.waiters)
    && (forall t :: t in sem.waiters ==> t in s.tcbs)
  }

  ghost predicate Accounted(s: State) {
    && (forall t :: t in s.tcbs ==> TcbAccounted(s, t))
    && (forall m :: m in s.sems ==> SemAccounted(s, m))
  }

  lemma TakeKeepsAccounts(s: State, t: Task, m: Mutex)
    requires Accounted(s) && Enabled(s, DoTake(t, m))
    ensures Accounted(Take(s, t, m))
  {
    var s' := Take(s, t, m);
    assert SemAccounted(s, m);
    assert HeldBy(s', t) == HeldBy(s, t) + {m};
    forall u | u in s'.tcbs
      ensures TcbAccounted(s', u)
    {
      assert TcbAccounted(s, u);
      assert u != t ==> HeldBy(s', u) == HeldBy(s, u);
    }
    forall n | n in s'.sems ensures SemAccounted(s', n) { assert SemAccounted(s, n); }
  }

  /** A mutex whose recursive count has unwound. */
  function Unwound(s: State, m: Mutex): State
    requires m in s.sems
  {
    s.(sems := s.sems[m := s.sems[m].(depth := 0)])
  }

  lemma GiveKeepsAccounts(s: State, t: Task, m: Mutex)
    requires Accounted(s) && Runs(s, t) && m in s.sems && s.sems[m].holder == Some(t)
    ensures Accounted(Give(Unwound(s, m), t, m))
  {
    var s' := Give(Unwound(s, m), t, m);
    assert SemAccounted(s, m);
    assert m in HeldBy(s, t) && HeldBy(s', t) == HeldBy(s, t) - {m};
    forall u | u in s'.tcbs
      ensures TcbAccounted(s', u)
    {
      assert TcbAccounted(s, u);
      assert u != t ==> HeldBy(s', u) == HeldBy(s, u);
    }
    forall n | n in s'.sems ensures SemAccounted(s', n) { assert SemAccounted(s, n); }
  }

  /** A step that changes no holder keeps what each task holds. */
  lemma SameHolders(s: State, s': State)
    requires Accounted(s) && s'.tcbs.Keys == s.tcbs.Keys && s'.sems.Keys == s.sems.Keys
    requires s'.maxPriorities == s.maxPriorities
    requires forall m :: m in s.sems ==> s'.sems[m].holder == s.sems[m].holder && SemAccounted(s', m)
    requires forall t :: t in s.tcbs ==>
               var a, b := s.tcbs[t], s'.tcbs[t];
               b.held == a.held && b.base <= b.priority < s.maxPriorities
               && 0 < b.eventValue <= s.maxPriorities && (b.held == 0 ==> b.base == b.priority)
    ensures Accounted(s')
  {
    forall t | t in s'.tcbs
      ensures TcbAccounted(s', t)
    {
      assert TcbAccounted(s, t);
      assert HeldBy(s', t) == HeldBy(s, t);
    }
  }

  lemma InheritKeepsAccounts(s: State, m: Mutex, p: nat)
    requires Accounted(s) && m in s.sems && p < s.maxPriorities
    ensures Accounted(Inherit(s, m, p))
  {
    var s' := Inherit(s, m, p);
    assert SemAccounted(s, m);
    forall n | n in s.sems ensures SemAccounted(s', n) { assert SemAccounted(s, n); }
    forall t | t in s.tcbs
      ensures TcbAccounted(s, t) && |HeldBy(s, t)| == s.tcbs[t].held
    {
    }
    if s.sems[m].holder.Some? {
      assert m in HeldBy(s, s.sems[m].holder.value);
    }
    SameHolders(s, s');
  }

  lemma EnqueueKeepsAccounts(s: State, t: Task, m: Mutex)
    requires Accounted(s) && Runs(s, t) && m in s.sems
    ensures Accounted(Enqueue(s, t, m))
  {
    var s' := Enqueue(s, t, m);
    assert SemAccounted(s, m);
    InsertKeepsDistinct(s.sems[m].waiters, InsertPosition(Ranks(s, s.sems[m].waiters), s.tcbs[t].eventValue), t);
    forall n | n in s.sems ensures SemAccounted(s', n) { assert SemAccounted(s, n); }
    forall u | u in s.tcbs ensures TcbAccounted(s, u) { }
    SameHolders(s, s');
  }

  lemma BlockKeepsAccounts(s: State, t: Task, m: Mutex)
    requires Accounted(s) && Enabled(s, DoBlock(t, m))
    ensures Accounted(Block(s, t, m))
  {
    assert TcbAccounted(s, t);
    InheritKeepsAccounts(s, m, s.tcbs[t].priority);
    EnqueueKeepsAccounts(Inherit(s, m, s.tcbs[t].priority), t, m);
  }

  lemma TimeOutKeepsAccounts(s: State, t: Task)
    requires Accounted(s)
    ensures Accounted(TimeOut(s, t))
  {
    var s' := TimeOut(s, t);
    forall m | m in s.sems
      ensures SemAccounted(s', m)
    {
      assert SemAccounted(s, m);
      RemovedFacts(s.sems[m].waiters, t);
    }
    forall u | u in s.tcbs ensures TcbAccounted(s, u) { }
    SameHolders(s, s');
  }

  lemma AfterTimeOutKeepsAccounts(s: State, m: Mutex)
    requires Accounted(s) && Enabled(s, DoAfterTimeOut(m))
    ensures Accounted(AfterTimeOut(s, m))
  {
    var s' := AfterTimeOut(s, m);
    var waiters := s.sems[m].waiters;
    assert SemAccounted(s, m);
    if waiters != [] {
      assert TcbAccounted(s, waiters[0]);
    }
    forall n | n in s.sems ensures SemAccounted(s', n) { assert SemAccounted(s, n); }
    forall u | u in s.tcbs ensures TcbAccounted(s, u) { }
    SameHolders(s, s');
  }

  lemma TakeAgainKeepsAccounts(s: State, t: Task, m: Mutex)
    requires Accounted(s) && Enabled(s, DoTakeAgain(t, m))
    ensures Accounted(TakeAgain(s, m))
  {
    var s' := TakeAgain(s, m);
    forall n | n in s.sems ensures SemAccounted(s', n) { assert SemAccounted(s, n); }
    forall u | u in s.tcbs ensures TcbAccounted(s, u) { }
    SameHolders(s, s');
  }

  lemma GiveRecursiveKeepsAccounts(s: State, t: Task, m: Mutex)
    requires Accounted(s) && Enabled(s, DoGiveRecursive(t, m))
    ensures Accounted(GiveRecursive(s, t, m))
  {
    if s.sems[m].holder == Some(t) {
      assert SemAccounted(s, m);
      if s.sems[m].depth == 1 {
        GiveKeepsAccounts(s, t, m);
      } else {
        var s' := GiveRecursive(s, t, m);
        forall n | n in s.sems ensures SemAccounted(s', n) { assert SemAccounted(s, n); }
        forall u | u in s.tcbs ensures TcbAccounted(s, u) { }
        SameHolders(s, s');
      }
    }
  }

  lemma PrioritySetKeepsAccounts(s: State, t: Task, p: nat)
    requires Accounted(s) && Enabled(s, DoPrioritySet(t, p))
    ensures Accounted(Exec(s, DoPrioritySet(t, p)))
  {
    var s' := Exec(s, DoPrioritySet(t, p));
    forall n | n in s.sems ensures SemAccounted(s', n) { assert SemAccounted(s, n); }
    forall u | u in s.tcbs ensures TcbAccounted(s, u) { }
    SameHolders(s, s');
  }

  lemma StepKeepsAccounts(s: State, a: Action)
    requires Accounted(s) && Enabled(s, a)
    ensures Accounted(Exec(s, a))
  {
    match a
    case DoTake(t, m) => TakeKeepsAccounts(s, t, m);
    case DoBlock(t, m) => BlockKeepsAccounts(s, t, m);
    case DoGive(t, m) =>
      GiveKeepsAccounts(s, t, m);
      assert SemAccounted(s, m);
      assert Unwound(s, m) == s;
    case DoTakeAgain(t, m) => TakeAgainKeepsAccounts(s, t, m);
    case DoGiveRecursive(t, m) => GiveRecursiveKeepsAccounts(s, t, m);
    case DoTimeOut(t) => TimeOutKeepsAccounts(s, t);
    case DoAfterTimeOut(m) => AfterTimeOutKeepsAccounts(s, m);
    case DoPrioritySet(t, p) => PrioritySetKeepsAccounts(s, t, p);
  }

  /** A step that is not enabled is skipped. */
  function Stepped(s: State, a: Action): State {
    if Enabled(s, a) then Exec(s, a) else s
  }

  function Run(s: State, actions: seq<Action>): State
    decreases actions
  {
    if actions == [] then s else Run(Stepped(s, actions[0]), actions[1..])
  }

  lemma {:induction false} RunKeepsAccounts(s: State, actions: seq<Action>)
    requires Accounted(s)
    ensures Accounted(Run(s, actions))
    decreases actions
  {
    if actions != [] {
      if Enabled(s, actions[0]) {
        StepKeepsAccounts(s, actions[0]);
      }
      RunKeepsAccounts(Stepped(s, actions[0]), actions[1..]);
    }
  }

  /** Tasks at their base priorities, and mutexes as they are created: free. */
  ghost function Created(priorities: map<Task, nat>, mutexes: map<Mutex, bool>, maxPriorities: Tick): (s: State)
    requires maxPriorities < IN_USE && forall t :: t in priorities ==> priorities[t] < maxPriorities
  {
    State(map t | t in priorities :: Tcb(priorities[t], priorities[t], 0, Rank(maxPriorities, priorities[t])),
          map m | m in mutexes :: Sem(mutexes[m], 1, None, 0, [], None),
          maxPriorities)
  }

  /**
   * In every reachable state, also when priorities are set and tasks block while
   * they hold mutexes: a task's count of mutexes is the number that name it their
   * holder, a mutex is free exactly when nobody holds it, a task runs at its base
   * priority or above, and at its base priority when it holds nothing.
   */
  lemma MutexAccounting(priorities: map<Task, nat>, mutexes: map<Mutex, bool>, maxPriorities: Tick,
                        actions: seq<Action>)
    requires maxPriorities < IN_USE && forall t :: t in priorities ==> priorities[t] < maxPriorities
    ensures var s := Run(Created(priorities, mutexes, maxPriorities), actions);
            && (forall t :: t in s.tcbs ==>
                  var tcb := s.tcbs[t];
                  && tcb.held == |set m | m in s.sems && s.sems[m].holder == Some(t)|
                  && tcb.base <= tcb.priority && (tcb.held == 0 ==> tcb.base == tcb.priority))
            && (forall m :: m in s.sems ==>
                  var sem := s.sems[m];
                  && sem.count <= 1 && (sem.count == 1 <==> sem.holder == None)
                  && (sem.recursive ==> (sem.depth > 0 <==> sem.holder.Some?)))
  {
    var s := Created(priorities, mutexes, maxPriorities);
    forall t | t in s.tcbs ensures TcbAccounted(s, t) { assert HeldBy(s, t) == {}; }
    RunKeepsAccounts(s, actions);
    var e := Run(s, actions);
    forall t | t in e.tcbs
      ensures TcbAccounted(e, t) && HeldBy(e, t) == set m | m in e.sems && e.sems[m].holder == Some(t)
    {
    }
    forall m | m in e.sems ensures SemAccounted(e, m) { }
  }

  /** A task waits for one mutex at a time. */
  ghost predicate WaitOnce(s: State) {
    forall t, m, n :: m in s.sems && n in s.sems && t in s.sems[m].waiters && t in s.sems[n].waiters ==> m == n
  }

  lemma StepKeepsWaitOnce(s: State, a: Action)
    requires Accounted(s) && WaitOnce(s) && Enabled(s, a)
    ensures WaitOnce(Exec(s, a))
  {
    if a.DoBlock? {
      BlockKeepsWaitOnce(s, a.task, a.mutex);
    } else {
      forall m | m in s.sems
        ensures forall u :: u in Exec(s, a).sems[m].waiters ==> u in s.sems[m].waiters
      {
        NoNewWaiters(s, a, m);
      }
    }
  }

  lemma NoNewWaiters(s: State, a: Action, m: Mutex)
    requires Accounted(s) && Enabled(s, a) && !a.DoBlock? && m in s.sems
    ensures Exec(s, a).sems.Keys == s.sems.Keys
    ensures forall u :: u in Exec(s, a).sems[m].waiters ==> u in s.sems[m].waiters
  {
    if a.DoTimeOut? {
      assert SemAccounted(s, m);
      RemovedFacts(s.sems[m].waiters, a.task);
    }
  }

  lemma BlockKeepsWaitOnce(s: State, t: Task, m: Mutex)
    requires WaitOnce(s) && Enabled(s, DoBlock(t, m))
    ensures WaitOnce(Block(s, t, m))
  {
    var s' := Block(s, t, m);
    assert forall u :: u in s'.sems[m].waiters <==> u in s.sems[m].waiters || u == t;
  }

  // ---- inheritance ------------------------------------------------------------------------------

  /**
   * The rules under which inheritance is enough: no task waits for a mutex while it
   * holds one, priorities are not set, and a freed mutex is not taken by a task that
   * the waiter just woken outranks.
   */
  predicate Disciplined(s: State, a: Action) {
    match a
    case DoBlock(t, m) => t in s.tcbs ==> s.tcbs[t].held == 0
    case DoPrioritySet(_, _) => false
    case DoTake(t, m) =>
      t in s.tcbs && m in s.sems && s.sems[m].waiters != [] ==>
        (match s.sems[m].woken
         case Some(w) => w in s.tcbs ==> s.tcbs[w].priority <= s.tcbs[t].priority
         case None => true)
    case _ => true
  }

  ghost predicate Ranked(s: State, t: Task)
    requires t in s.tcbs
  {
    s.tcbs[t].eventValue == Rank(s.maxPriorities, s.tcbs[t].priority)
  }

  /** Waiters hold nothing and are in order; the holder, or the task woken to be the next, outranks them all. */
  ghost predicate Outranked(s: State, m: Mutex)
    requires m in s.sems
  {
    var sem := s.sems[m];
    && Sorted(Ranks(s, sem.waiters))
    && (forall t :: t in sem.waiters ==> t in s.tcbs && s.tcbs[t].held == 0)
    && match sem.holder
       case Some(h) =>
         h in s.tcbs && forall t :: t in sem.waiters ==> t in s.tcbs && s.tcbs[h].priority >= s.tcbs[t].priority
       case None =>
         sem.waiters != [] ==>
           && sem.woken.Some? && sem.woken.value in s.tcbs
           && forall t :: t in sem.waiters ==> t in s.tcbs && s.tcbs[sem.woken.value].base >= s.tcbs[t].priority
  }

  ghost predicate Safe(s: State) {
    && Accounted(s)
    && (forall t :: t in s.tcbs ==> Ranked(s, t))
    && (forall m :: m in s.sems ==> Outranked(s, m))
  }

  /** A waiting list that has not changed, of tasks that have not changed, stays in order. */
  lemma SameRanks(s: State, s': State, waiters: seq<Task>)
    requires forall t :: t in waiters ==> t in s.tcbs && t in s'.tcbs && s'.tcbs[t] == s.tcbs[t]
    ensures Ranks(s', waiters) == Ranks(s, waiters)
  {
  }

  /** A mutex that has not changed stays safe as long as its waiters have not changed and its holder has not dropped. */
  lemma StillOutranked(s: State, s': State, n: Mutex)
    requires n in s.sems && Outranked(s, n) && n in s'.sems && s'.sems[n] == s.sems[n]
    requires forall t :: t in s.tcbs ==> t in s'.tcbs && s'.tcbs[t].base == s.tcbs[t].base
    requires forall t :: t in s.sems[n].waiters ==> s'.tcbs[t] == s.tcbs[t]
    requires s.sems[n].holder.Some? ==>
               s'.tcbs[s.sems[n].holder.value].priority >= s.tcbs[s.sems[n].holder.value].priority
    ensures Outranked(s', n)
  {
    SameRanks(s, s', s.sems[n].waiters);
  }

  lemma TakeKeepsSafe(s: State, t: Task, m: Mutex)
    requires Safe(s) && Enabled(s, DoTake(t, m)) && Disciplined(s, DoTake(t, m))
    ensures Safe(Take(s, t, m))
  {
    var s' := Take(s, t, m);
    TakeKeepsAccounts(s, t, m);
    forall u | u in s'.tcbs ensures Ranked(s', u) { assert Ranked(s, u); }
    forall n | n in s.sems
      ensures Outranked(s', n)
    {
      if n != m {
        OthersUnaffectedByTake(s, t, m, n);
      } else {
        TakerOutranks(s, t, m);
      }
    }
  }

  lemma OthersUnaffectedByTake(s: State, t: Task, m: Mutex, n: Mutex)
    requires m in s.sems && s.sems[m].count > 0 && Runs(s, t)
    requires n in s.sems && n != m && Outranked(s, n)
    ensures Outranked(Take(s, t, m), n)
  {
    StillOutranked(s, Take(s, t, m), n);
  }

  lemma TakerOutranks(s: State, t: Task, m: Mutex)
    requires Safe(s) && Enabled(s, DoTake(t, m)) && Disciplined(s, DoTake(t, m))
    ensures Outranked(Take(s, t, m), m)
  {
    assert Outranked(s, m) && SemAccounted(s, m);
    SameRanks(s, Take(s, t, m), s.sems[m].waiters);
    if s.sems[m].waiters != [] {
      assert TcbAccounted(s, s.sems[m].woken.value);
    }
  }

  lemma InheritKeepsSafe(s: State, m: Mutex, p: nat)
    requires Safe(s) && m in s.sems && s.sems[m].count == 0 && p < s.maxPriorities
    ensures var s' := Inherit(s, m, p);
            && Safe(s') && s'.sems == s.sems
            && s'.tcbs[s.sems[m].holder.value].priority >= p
  {
    var s' := Inherit(s, m, p);
    InheritKeepsAccounts(s, m, p);
    HolderDoesNotWait(s, m);
    forall u | u in s'.tcbs ensures Ranked(s', u) { assert Ranked(s, u); }
    forall n | n in s.sems
      ensures Outranked(s', n)
    {
      assert Outranked(s, n);
      SameRanks(s, s', s.sems[n].waiters);
    }
  }

  lemma EnqueueKeepsSafe(s: State, t: Task, m: Mutex)
    requires Safe(s) && Runs(s, t) && m in s.sems && s.tcbs[t].held == 0 && s.sems[m].holder.Some?
    requires s.tcbs[s.sems[m].holder.value].priority >= s.tcbs[t].priority
    ensures Safe(Enqueue(s, t, m))
  {
    var s' := Enqueue(s, t, m);
    EnqueueKeepsAccounts(s, t, m);
    forall u | u in s'.tcbs ensures Ranked(s', u) { assert Ranked(s, u); }
    forall n | n in s.sems
      ensures Outranked(s', n)
    {
      assert Outranked(s, n);
      if n != m {
        StillOutranked(s, s', n);
      } else {
        EnqueuedIsOutranked(s, t, m);
      }
    }
  }

  lemma EnqueuedIsOutranked(s: State, t: Task, m: Mutex)
    requires m in s.sems && Outranked(s, m) && t in s.tcbs && s.tcbs[t].held == 0 && s.sems[m].holder.Some?
    requires s.tcbs[s.sems[m].holder.value].priority >= s.tcbs[t].priority
    ensures Outranked(Enqueue(s, t, m), m)
  {
    var s' := Enqueue(s, t, m);
    var waiters := s.sems[m].waiters;
    InsertedInOrder(s, waiters, t);
    SameRanks(s, s', s'.sems[m].waiters);
    assert forall u :: u in s'.sems[m].waiters ==> u in waiters || u == t;
  }

  lemma InsertedInOrder(s: State, waiters: seq<Task>, t: Task)
    requires Sorted(Ranks(s, waiters)) && t in s.tcbs
    requires forall u :: u in waiters ==> u in s.tcbs
    ensures var k := InsertPosition(Ranks(s, waiters), s.tcbs[t].eventValue);
            var more := waiters[..k] + [t] + waiters[k..];
            Sorted(Ranks(s, more)) && forall u :: u in more ==> u in s.tcbs
  {
    var ranks, v := Ranks(s, waiters), s.tcbs[t].eventValue;
    var k := InsertPosition(ranks, v);
    var more := waiters[..k] + [t] + waiters[k..];
    forall i | 0 <= i < |more|
      ensures Ranks(s, more)[i] == if i < k then ranks[i] else if i == k then v else ranks[i - 1]
    {
    }
    InsertedIsSorted(ranks, v, Ranks(s, more));
  }

  lemma BlockKeepsSafe(s: State, t: Task, m: Mutex)
    requires Safe(s) && Enabled(s, DoBlock(t, m)) && Disciplined(s, DoBlock(t, m))
    ensures Safe(Block(s, t, m))
  {
    var p := s.tcbs[t].priority;
    assert TcbAccounted(s, t);
    InheritKeepsSafe(s, m, p);
    HolderDoesNotWait(s, m);
    EnqueueKeepsSafe(Inherit(s, m, p), t, m);
  }

  /** The holder of a mutex, as it holds one, waits for none; and it is not a task that holds none. */
  lemma HolderDoesNotWait(s: State, m: Mutex)
    requires Safe(s) && m in s.sems && s.sems[m].count == 0
    ensures s.sems[m].holder.Some? && s.sems[m].holder.value in s.tcbs
    ensures s.tcbs[s.sems[m].holder.value].held > 0
    ensures forall n :: n in s.sems ==> s.sems[m].holder.value !in s.sems[n].waiters
  {
    assert SemAccounted(s, m);
    var h := s.sems[m].holder.value;
    assert TcbAccounted(s, h) && m in HeldBy(s, h);
    forall n | n in s.sems
      ensures h !in s.sems[n].waiters
    {
      assert Outranked(s, n);
    }
  }

  lemma GiveKeepsSafe(s: State, t: Task, m: Mutex)
    requires Safe(s) && Runs(s, t) && m in s.sems && s.sems[m].holder == Some(t)
    ensures Safe(Give(Unwound(s, m), t, m))
  {
    var s' := Give(Unwound(s, m), t, m);
    GiveKeepsAccounts(s, t, m);
    assert TcbAccounted(s, t) && m in HeldBy(s, t);
    forall u | u in s'.tcbs ensures Ranked(s', u) { assert Ranked(s, u) && TcbAccounted(s, u); }
    forall n | n in s.sems
      ensures Outranked(s', n)
    {
      if n == m {
        HandsOver(s, t, m);
      } else {
        OthersUnaffectedByGive(s, t, m, n);
      }
    }
  }

  /** The waiter that a give wakes outranks those it leaves waiting. */
  lemma HandsOver(s: State, t: Task, m: Mutex)
    requires Safe(s) && Runs(s, t) && m in s.sems && s.sems[m].holder == Some(t)
    ensures Outranked(Give(Unwound(s, m), t, m), m)
  {
    var s' := Give(Unwound(s, m), t, m);
    assert Outranked(s, m) && SemAccounted(s, m);
    var waiters := s.sems[m].waiters;
    if waiters != [] {
      SameRanks(s, s', waiters);
      TailInOrder(s', waiters);
      HeadOutranks(s, m);
    }
  }

  lemma HeadOutranks(s: State, m: Mutex)
    requires Safe(s) && m in s.sems && s.sems[m].waiters != []
    ensures var waiters := s.sems[m].waiters;
            && waiters[0] in s.tcbs
            && forall u :: u in waiters ==> u in s.tcbs && s.tcbs[waiters[0]].base >= s.tcbs[u].priority
  {
    var head := s.sems[m].waiters[0];
    assert Outranked(s, m) && TcbAccounted(s, head) && Ranked(s, head);
    HighestWaitingIs(s, m);
  }

  lemma TailInOrder(s: State, waiters: seq<Task>)
    requires waiters != [] && Sorted(Ranks(s, waiters))
    ensures Sorted(Ranks(s, waiters[1..]))
  {
    var tail := waiters[1..];
    forall i | 0 <= i < |tail|
      ensures Ranks(s, tail)[i] == Ranks(s, waiters)[i + 1]
    {
    }
    RemovedIsSorted(Ranks(s, waiters), 0, Ranks(s, tail));
  }

  lemma TwoHeld(s: State, t: Task, m: Mutex, n: Mutex)
    requires m in s.sems && n in s.sems && m != n && s.sems[m].holder == s.sems[n].holder == Some(t)
    ensures |HeldBy(s, t)| >= 2
  {
    SubsetSize({m, n}, HeldBy(s, t));
  }

  /** A task that still holds a mutex keeps its priority when it gives another. */
  lemma OthersUnaffectedByGive(s: State, t: Task, m: Mutex, n: Mutex)
    requires Safe(s) && Runs(s, t) && m in s.sems && s.sems[m].holder == Some(t)
    requires n in s.sems && n != m
    ensures Outranked(Give(Unwound(s, m), t, m), n)
  {
    assert Outranked(s, n) && TcbAccounted(s, t);
    if s.sems[n].holder == Some(t) {
      TwoHeld(s, t, m, n);
    }
    StillOutranked(s, Give(Unwound(s, m), t, m), n);
  }

  lemma TimeOutKeepsSafe(s: State, t: Task)
    requires Safe(s)
    ensures Safe(TimeOut(s, t))
  {
    TimeOutKeepsAccounts(s, t);
    forall u | u in s.tcbs ensures Ranked(TimeOut(s, t), u) { assert Ranked(s, u); }
    forall n | n in s.sems
      ensures Outranked(TimeOut(s, t), n)
    {
      assert SemAccounted(s, n);
      FewerOutranked(s, t, n);
    }
  }

  lemma FewerOutranked(s: State, t: Task, n: Mutex)
    requires n in s.sems && Outranked(s, n) && Distinct(s.sems[n].waiters)
    ensures Outranked(TimeOut(s, t), n)
  {
    var waiters := s.sems[n].waiters;
    RemovedStaysInOrder(s, waiters, t);
    RemovedFacts(waiters, t);
    SameRanks(s, TimeOut(s, t), Removed(waiters, t));
  }

  lemma RemovedStaysInOrder(s: State, waiters: seq<Task>, t: Task)
    requires Distinct(waiters) && Sorted(Ranks(s, waiters))
    ensures Sorted(Ranks(s, Removed(waiters, t)))
  {
    if k :| 0 <= k < |waiters| && waiters[k] == t {
      RemovedAt(waiters, k);
      var ranks, less := Ranks(s, waiters), waiters[..k] + waiters[k + 1..];
      forall i | 0 <= i < |less|
        ensures Ranks(s, less)[i] == if i < k then ranks[i] else ranks[i + 1]
      {
      }
      RemovedIsSorted(ranks, k, Ranks(s, less));
    } else {
      NothingRemoved(waiters, t);
    }
  }

  lemma AfterTimeOutKeepsSafe(s: State, m: Mutex)
    requires Safe(s) && Enabled(s, DoAfterTimeOut(m))
    ensures Safe(AfterTimeOut(s, m))
  {
    var s' := AfterTimeOut(s, m);
    AfterTimeOutKeepsAccounts(s, m);
    HolderDoesNotWait(s, m);
    forall u | u in s'.tcbs ensures Ranked(s', u) { assert Ranked(s, u); }
    forall n | n in s.sems
      ensures Outranked(s', n)
    {
      AfterTimeOutAt(s, m, n);
    }
  }

  /** The holder drops no lower than the first of those who still wait, and not at all if it holds other mutexes. */
  lemma AfterTimeOutAt(s: State, m: Mutex, n: Mutex)
    requires Safe(s) && Enabled(s, DoAfterTimeOut(m)) && n in s.sems
    ensures Outranked(AfterTimeOut(s, m), n)
  {
    HolderDoesNotWait(s, m);
    var h := s.sems[m].holder.value;
    assert Outranked(s, n) && TcbAccounted(s, h);
    if n == m {
      HighestWaitingIs(s, m);
      SameRanks(s, AfterTimeOut(s, m), s.sems[m].waiters);
    } else {
      if s.sems[n].holder == Some(h) {
        TwoHeld(s, h, m, n);
      }
      StillOutranked(s, AfterTimeOut(s, m), n);
    }
  }

  /** No waiter has a higher priority than the one at the head of the list. */
  lemma HighestWaitingIs(s: State, m: Mutex)
    requires Safe(s) && m in s.sems
    ensures forall t :: t in s.sems[m].waiters ==> t in s.tcbs && HighestWaiting(s, m) >= s.tcbs[t].priority
  {
    var waiters := s.sems[m].waiters;
    assert Outranked(s, m);
    forall i | 0 <= i < |waiters|
      ensures HighestWaiting(s, m) >= s.tcbs[waiters[i]].priority
    {
      assert TcbAccounted(s, waiters[i]) && Ranked(s, waiters[i]);
      assert TcbAccounted(s, waiters[0]) && Ranked(s, waiters[0]);
      assert Ranks(s, waiters)[0] <= Ranks(s, waiters)[i];
    }
  }

  lemma RecursiveKeepsSafe(s: State, t: Task, m: Mutex, a: Action)
    requires Safe(s) && Enabled(s, a) && (a == DoTakeAgain(t, m) || a == DoGiveRecursive(t, m))
    ensures Safe(Exec(s, a))
  {
    StepKeepsAccounts(s, a);
    if a.DoGiveRecursive? && s.sems[m].holder == Some(t) && s.sems[m].depth <= 1 {
      assert SemAccounted(s, m);
      GiveKeepsSafe(s, t, m);
    } else {
      var s' := Exec(s, a);
      forall u | u in s'.tcbs ensures Ranked(s', u) { assert Ranked(s, u); }
      forall n | n in s.sems
        ensures Outranked(s', n)
      {
        assert Outranked(s, n);
        SameRanks(s, s', s.sems[n].waiters);
      }
    }
  }

  lemma StepKeepsSafe(s: State, a: Action)
    requires Safe(s) && Enabled(s, a) && Disciplined(s, a)
    ensures Safe(Exec(s, a))
  {
    match a
    case DoTake(t, m) => TakeKeepsSafe(s, t, m);
    case DoBlock(t, m) => BlockKeepsSafe(s, t, m);
    case DoGive(t, m) =>
      GiveKeepsSafe(s, t, m);
      assert SemAccounted(s, m);
      assert Unwound(s, m) == s;
    case DoTakeAgain(t, m) => RecursiveKeepsSafe(s, t, m, a);
    case DoGiveRecursive(t, m) => RecursiveKeepsSafe(s, t, m, a);
    case DoTimeOut(t) => TimeOutKeepsSafe(s, t);
    case DoAfterTimeOut(m) => AfterTimeOutKeepsSafe(s, m);
    case DoPrioritySet(t, p) =>
  }

  /** Every step of the run that takes place follows the rules. */
  predicate DisciplinedRun(s: State, actions: seq<Action>)
    decreases actions
  {
    actions != [] ==>
      && (Enabled(s, actions[0]) ==> Disciplined(s, actions[0]))
      && DisciplinedRun(Stepped(s, actions[0]), actions[1..])
  }

  lemma {:induction false} RunKeepsSafe(s: State, actions: seq<Action>)
    requires Safe(s) && DisciplinedRun(s, actions)
    ensures Safe(Run(s, actions))
    decreases actions
  {
    if actions != [] {
      if Enabled(s, actions[0]) {
        StepKeepsSafe(s, actions[0]);
      }
      RunKeepsSafe(Stepped(s, actions[0]), actions[1..]);
    }
  }

  /** The holder of every mutex runs at the priority of each task that waits for it, or above. */
  predicate HoldersOutrankWaiters(s: State) {
    forall m, t :: m in s.sems && s.sems[m].holder.Some? && t in s.sems[m].waiters
                   && s.sems[m].holder.value in s.tcbs && t in s.tcbs ==>
      s.tcbs[s.sems[m].holder.value].priority >= s.tcbs[t].priority
  }

  /**
   * Priority inheritance is safe over every disciplined run, across hand-over from
   * holder to holder and the time-outs of waiters.
   */
  lemma InheritanceIsSafe(priorities: map<Task, nat>, mutexes: map<Mutex, bool>, maxPriorities: Tick,
                          actions: seq<Action>)
    requires maxPriorities < IN_USE && forall t :: t in priorities ==> priorities[t] < maxPriorities
    requires DisciplinedRun(Created(priorities, mutexes, maxPriorities), actions)
    ensures HoldersOutrankWaiters(Run(Created(priorities, mutexes, maxPriorities), actions))
  {
    var s := Created(priorities, mutexes, maxPriorities);
    forall t | t in s.tcbs ensures TcbAccounted(s, t) { assert HeldBy(s, t) == {}; }
    RunKeepsSafe(s, actions);
    var e := Run(s, actions);
    forall m | m in e.sems ensures Outranked(e, m) { }
  }

  /**
   * When a task blocks, whatever the rules, holders go on outranking waiters if and
   * only if the priority it passes on need not be passed on again: its own holder is
   * not raised, or is not itself waiting for a task of lower priority.
   */
  lemma BlockingIsSafeIff(s: State, t: Task, m: Mutex)
    requires Accounted(s) && HoldersOutrankWaiters(s) && Enabled(s, DoBlock(t, m))
    ensures HoldersOutrankWaiters(Block(s, t, m))
            <==>
            var h := s.sems[m].holder.value;
            s.tcbs[h].priority >= s.tcbs[t].priority || WaitsForNobodyBelow(s, h, s.tcbs[t].priority)
  {
    assert SemAccounted(s, m);
    var h := s.sems[m].holder.value;
    if s.tcbs[h].priority >= s.tcbs[t].priority || WaitsForNobodyBelow(s, h, s.tcbs[t].priority) {
      BlockingStaysSafe(s, t, m);
    } else {
      BlockingLeavesBehind(s, t, m);
    }
  }

  /** The holders of the mutexes that task `h` waits for have priority `p` or above. */
  ghost predicate WaitsForNobodyBelow(s: State, h: Task, p: nat) {
    forall n, g :: n in s.sems && h in s.sems[n].waiters && s.sems[n].holder == Some(g) && g != h && g in s.tcbs ==>
      s.tcbs[g].priority >= p
  }

  lemma BlockingStaysSafe(s: State, t: Task, m: Mutex)
    requires Accounted(s) && HoldersOutrankWaiters(s) && Enabled(s, DoBlock(t, m)) && SemAccounted(s, m)
    requires var h := s.sems[m].holder.value;
             s.tcbs[h].priority >= s.tcbs[t].priority || WaitsForNobodyBelow(s, h, s.tcbs[t].priority)
    ensures HoldersOutrankWaiters(Block(s, t, m))
  {
    InheritingStaysSafe(s, m, s.tcbs[t].priority);
    QueueingStaysSafe(Inherit(s, m, s.tcbs[t].priority), t, m);
  }

  lemma InheritingStaysSafe(s: State, m: Mutex, p: nat)
    requires HoldersOutrankWaiters(s) && m in s.sems && s.sems[m].holder.Some? && s.sems[m].holder.value in s.tcbs
    requires var h := s.sems[m].holder.value; s.tcbs[h].priority >= p || WaitsForNobodyBelow(s, h, p)
    ensures HoldersOutrankWaiters(Inherit(s, m, p))
  {
  }

  lemma QueueingStaysSafe(s: State, t: Task, m: Mutex)
    requires HoldersOutrankWaiters(s) && t in s.tcbs && m in s.sems && s.sems[m].holder.Some?
    requires var h := s.sems[m].holder.value; h in s.tcbs && s.tcbs[h].priority >= s.tcbs[t].priority
    ensures HoldersOutrankWaiters(Enqueue(s, t, m))
  {
    var s' := Enqueue(s, t, m);
    assert forall u :: u in s'.sems[m].waiters <==> u in s.sems[m].waiters || u == t;
  }

  lemma BlockingLeavesBehind(s: State, t: Task, m: Mutex)
    requires Accounted(s) && Enabled(s, DoBlock(t, m)) && SemAccounted(s, m)
    requires var h := s.sems[m].holder.value;
             s.tcbs[h].priority < s.tcbs[t].priority && !WaitsForNobodyBelow(s, h, s.tcbs[t].priority)
    ensures !HoldersOutrankWaiters(Block(s, t, m))
  {
    var h, s' := s.sems[m].holder.value, Block(s, t, m);
    var n, g :| n in s.sems && h in s.sems[n].waiters && s.sems[n].holder == Some(g) && g != h && g in s.tcbs
                && s.tcbs[g].priority < s.tcbs[t].priority;
    assert forall u :: u in s'.sems[m].waiters <==> u in s.sems[m].waiters || u == t;
    assert h in s'.sems[n].waiters && s'.sems[n].holder == s.sems[n].holder;
  }

  /**
   * When a task takes a free mutex, whatever the rules, holders go on outranking
   * waiters if and only if it outranks those who already wait for it.
   */
  lemma TakingIsSafeIff(s: State, t: Task, m: Mutex)
    requires Accounted(s) && HoldersOutrankWaiters(s) && Enabled(s, DoTake(t, m))
    ensures HoldersOutrankWaiters(Take(s, t, m))
            <==> forall u :: u in s.sems[m].waiters ==> s.tcbs[u].priority <= s.tcbs[t].priority
  {
    assert SemAccounted(s, m);
    var s' := Take(s, t, m);
    if HoldersOutrankWaiters(s') {
      forall u | u in s.sems[m].waiters
        ensures s.tcbs[u].priority <= s.tcbs[t].priority
      {
        assert u in s'.sems[m].waiters;
      }
    }
  }

  /** A mutex given back: the first waiter, 3, has been woken, and 2 still waits. */
  const GIVEN_BACK: State :=
    State(map[1 := Tcb(1, 1, 0, 4), 2 := Tcb(2, 2, 0, 3), 3 := Tcb(3, 3, 0, 2)],
          map[1 := Sem(false, 1, None, 0, [2], Some(3))],
          5)

  /** Task 1 takes the mutex before the woken task does, and holds it below the priority of the one that waits. */
  lemma BargingBreaksTheOrder()
    ensures Safe(GIVEN_BACK) && Enabled(GIVEN_BACK, DoTake(1, 1))
    ensures !HoldersOutrankWaiters(Take(GIVEN_BACK, 1, 1))
  {
    GivenBackIsSafe();
    assert 2 in Take(GIVEN_BACK, 1, 1).sems[1].waiters;
  }

  lemma GivenBackIsSafe()
    ensures Safe(GIVEN_BACK)
  {
    var s := GIVEN_BACK;
    assert HeldBy(s, 1) == {} && HeldBy(s, 2) == {} && HeldBy(s, 3) == {};
  }

  /** Low holds a mutex that middle waits for, while middle holds one that is free of waiters so far. */
  const CHAIN: State :=
    State(map[1 := Tcb(1, 2, 1, 3), 2 := Tcb(2, 2, 1, 3), 3 := Tcb(3, 3, 0, 2)],
          map[1 := Sem(false, 0, Some(1), 0, [2], None), 2 := Sem(false, 0, Some(2), 0, [], None)],
          5)

  /** Inheritance is not transitive: high waits for middle's mutex and raises middle, but low stays below it. */
  lemma InheritanceIsNotTransitive()
    ensures Accounted(CHAIN) && HoldersOutrankWaiters(CHAIN) && Enabled(CHAIN, DoBlock(3, 2))
    ensures var s := Block(CHAIN, 3, 2);
            && s.sems[1].holder == Some(1) && s.sems[1].waiters == [2]
            && s.tcbs[1].priority == 2 && s.tcbs[2].priority == 3
  {
    ChainIsAccounted();
  }

  lemma ChainIsAccounted()
    ensures Accounted(CHAIN)
  {
    var s := CHAIN;
    assert HeldBy(s, 1) == {1} && HeldBy(s, 2) == {2} && HeldBy(s, 3) == {};
  }

  // ---- recursive mutexes ------------------------------------------------------------------------

  /** How a step changes the number of takes of `m` by `t` that have not been matched by gives. */
  function NetTake(s: State, a: Action, t: Task, m: Mutex): int {
    if !Enabled(s, a) then 0
    else if a == DoTakeAgain(t, m) then 1
    else if a == DoGiveRecursive(t, m) then -1
    else 0
  }

  function NetTakes(s: State, actions: seq<Action>, t: Task, m: Mutex): int
    decreases actions
  {
    if actions == [] then 0
    else NetTake(s, actions[0], t, m) + NetTakes(Stepped(s, actions[0]), actions[1..], t, m)
  }

  /** Nobody but the holder changes its count, and its last give frees the mutex. */
  lemma StepCounts(s: State, a: Action, t: Task, m: Mutex)
    requires Accounted(s) && m in s.sems && s.sems[m].recursive && s.sems[m].holder == Some(t)
    ensures var s' := Stepped(s, a);
            && m in s'.sems && s'.sems[m].recursive
            && s'.sems[m].depth == s.sems[m].depth + NetTake(s, a, t, m)
            && s'.sems[m].holder == if s'.sems[m].depth > 0 then Some(t) else None
  {
    assert SemAccounted(s, m);
  }

  /**
   * A recursive mutex is released by exactly the give that matches its first take:
   * whatever all tasks do, it stays with its holder as long as the holder's takes
   * outnumber its gives, and is free as soon as they are equal.
   */
  lemma {:induction false} ReleasedByTheMatchingGive(s: State, actions: seq<Action>, t: Task, m: Mutex)
    requires Accounted(s) && m in s.sems && s.sems[m].recursive && s.sems[m].holder == Some(t)
    requires forall k :: 0 <= k < |actions| ==> s.sems[m].depth + NetTakes(s, actions[..k], t, m) > 0
    ensures var e := Run(s, actions);
            && m in e.sems
            && e.sems[m].depth == s.sems[m].depth + NetTakes(s, actions, t, m)
            && e.sems[m].holder == if e.sems[m].depth > 0 then Some(t) else None
    decreases actions
  {
    assert SemAccounted(s, m);
    if actions != [] {
      var a, rest := actions[0], actions[1..];
      var s' := Stepped(s, a);
      StepCounts(s, a, t, m);
      if Enabled(s, a) {
        StepKeepsAccounts(s, a);
      }
      if rest != [] {
        forall k | 0 <= k < |rest|
          ensures s'.sems[m].depth + NetTakes(s', rest[..k], t, m) > 0
        {
          assert actions[..k + 1][1..] == rest[..k];
        }
        assert rest[..0] == [];
        ReleasedByTheMatchingGive(s', rest, t, m);
      }
    }
  }
}