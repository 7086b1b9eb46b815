/**
 * The scheduler of tasks.c in unbounded time: which task is where, when it wakes,
 * and what every kernel call does to that.  There is one list of sleepers, in the
 * order of their wake times, and the tick count never wraps.
 *
 * A step is a critical section or what runs with the scheduler suspended.
 */
module Schedule {
  import opened Ticks
  import opened Rings

  type Task = nat

  type ReadyList = r: Ring<Task> | r.index <= |r.items| witness Ring([], 0)

  /** A blocked task and the tick at which its time-out ends. */
  datatype Sleeper = Sleeper(task: Task, wake: nat)

  datatype World = World(
    now: nat,
    sleeping: seq<Sleeper>,
    ready: seq<ReadyList>,        // one list for each priority
    suspended: seq<Task>,         // suspended, or blocked without a time-out
    dying: seq<Task>,             // xTasksWaitingTermination
    priority: map<Task, nat>,     // of every task there is
    waiting: set<Task>,           // tasks whose event list item is on the list of some object
    pending: seq<Task>,           // xPendingReadyList
    current: Task,
    idle: Task,
    depth: nat,                   // uxSchedulerSuspended
    pended: nat,                  // xPendedTicks
    yieldPending: bool)

  // ---- sleepers ---------------------------------------------------------------------------

  function TasksOf(s: seq<Sleeper>): (t: seq<Task>)
    ensures |t| == |s|
  {
    seq(|s|, i requires 0 <= i < |s| => s[i].task)
  }

  /** vListInsert: behind the sleepers with the same wake time. */
  function Insert(s: seq<Sleeper>, x: Sleeper): seq<Sleeper>
    decreases s
  {
    if s == [] || s[0].wake > x.wake then [x] + s else [s[0]] + Insert(s[1..], x)
  }

  function Remove(s: seq<Sleeper>, t: Task): seq<Sleeper> {
    if s == [] then [] else if s[0].task == t then s[1..] else [s[0]] + Remove(s[1..], t)
  }

  function WakesOf(s: seq<Sleeper>): (w: seq<nat>)
    ensures |w| == |s|
  {
    seq(|s|, i requires 0 <= i < |s| => s[i].wake)
  }

  /** The recursive insertion is insertion where the scan of a list by wake times stops. */
  lemma {:induction false} InsertIsAtPosition(s: seq<Sleeper>, x: Sleeper)
    ensures var k := InsertPosition(WakesOf(s), x.wake);
            Insert(s, x) == s[..k] + [x] + s[k..]
    decreases |s|
  {
    if s != [] && s[0].wake <= x.wake {
      var rest := s[1..];
      var k := InsertPosition(WakesOf(rest), x.wake);
      InsertIsAtPosition(rest, x);
      assert WakesOf(s)[1..] == WakesOf(rest);
      assert s == [s[0]] + rest;
      assert s[..k + 1] == [s[0]] + rest[..k] && s[k + 1..] == rest[k..];
    }
  }

  /** Removing a sleeper removes its task from the list of tasks. */
  lemma {:induction false} TasksOfRemove(s: seq<Sleeper>, t: Task)
    ensures TasksOf(Remove(s, t)) == Removed(TasksOf(s), t)
    decreases |s|
  {
    if s != [] {
      var rest := s[1..];
      assert TasksOf(s)[1..] == TasksOf(rest);
      if s[0].task != t {
        TasksOfRemove(rest, t);
        assert TasksOf([s[0]] + Remove(rest, t)) == [s[0].task] + TasksOf(Remove(rest, t));
      }
    }
  }

  // ---- moving tasks between lists -----------------------------------------------------------

  predicate IsReady(w: World, t: Task) {
    t in w.priority && w.priority[t] < |w.ready| && t in w.ready[w.priority[t]].items
  }

  predicate IsSleeping(w: World, t: Task) {
    t in TasksOf(w.sleeping)
  }

  /** prvAddTaskToReadyList. */
  function AddReady(w: World, t: Task): World {
    if t in w.priority && w.priority[t] < |w.ready| then
      var p := w.priority[t];
      w.(ready := w.ready[p := w.ready[p].InsertEnd(t)])
    else w
  }

  /** uxListRemove of a task's state list item, wherever it is. */
  function Detach(w: World, t: Task): World {
    w.(ready := if t in w.priority && w.priority[t] < |w.ready|
                then w.ready[w.priority[t] := w.ready[w.priority[t]].Without(t)] else w.ready,
       sleeping := Remove(w.sleeping, t),
       suspended := Removed(w.suspended, t),
       dying := Removed(w.dying, t))
  }

  /** Removal of a task's event list item, if it is on a list. */
  function ClearEvent(w: World, t: Task): World {
    w.(waiting := w.waiting - {t}, pending := Removed(w.pending, t))
  }

  function MakeReady(w: World, t: Task): World {
    AddReady(Detach(w, t), t)
  }

  predicate Outranks(w: World, t: Task) {
    t in w.priority && w.current in w.priority && w.priority[t] > w.priority[w.current]
  }

  // ---- the kernel's operations ----------------------------------------------------------------

  /** The task leaves its ready list, and is or is not put on an event list. */
  function Leave(w: World, t: Task, event: bool): World {
    var u := Detach(w, t);
    u.(waiting := if event then u.waiting + {t} else u.waiting)
  }

  /** It is filed among the sleepers, or with the suspended tasks if it may sleep for ever. */
  function FallAsleep(w: World, t: Task, ticks: Tick, indefinitely: bool): World {
    if ticks == MAX_DELAY && indefinitely then w.(suspended := w.suspended + [t])
    else w.(sleeping := Insert(w.sleeping, Sleeper(t, w.now + ticks)))
  }

  /** prvAddCurrentTaskToDelayedList, for a task that has or has not been put on an event list. */
  function Block(w: World, ticks: Tick, indefinitely: bool, event: bool): World {
    FallAsleep(Leave(w, w.current, event), w.current, ticks, indefinitely)
  }

  /** One sleeper whose time has come. */
  function WakeHead(w: World): World
    requires w.sleeping != []
  {
    var t := w.sleeping[0].task;
    AddReady(ClearEvent(w.(sleeping := w.sleeping[1..]), t), t)
  }

  /** All sleepers due by `limit`, in order. */
  function WakeUpTo(w: World, limit: nat): World
    decreases |w.sleeping|
  {
    if w.sleeping == [] || w.sleeping[0].wake > limit then w else WakeUpTo(WakeHead(w), limit)
  }

  /** xTaskIncrementTick. */
  function IncrementTick(w: World): World {
    if w.depth > 0 then w.(pended := w.pended + 1) else WakeUpTo(w, w.now + 1).(now := w.now + 1)
  }

  /** One of the sleepers due by `limit` outranks the current task. */
  predicate DueOutranks(w: World, s: seq<Sleeper>, limit: nat)
    decreases s
  {
    s != [] && s[0].wake <= limit && (Outranks(w, s[0].task) || DueOutranks(w, s[1..], limit))
  }

  /**
   * Whether a tick asks for a switch: one is pending, a task it wakes outranks the
   * current one, or another of its priority is ready.
   */
  predicate TickWantsSwitch(w: World) {
    var u := WakeUpTo(w, w.now + 1);
    || w.yieldPending
    || DueOutranks(w, w.sleeping, w.now + 1)
    || (w.current in u.priority && u.priority[w.current] < |u.ready| && |u.ready[u.priority[w.current]].items| > 1)
  }

  /** Ticks that were pended are processed one after the other; a switch asked for stays asked for. */
  function Replay(w: World, ticks: nat): World
    decreases ticks
  {
    if ticks == 0 then w else ReplayOne(Replay(w, ticks - 1))
  }

  function ReplayOne(w: World): World {
    IncrementTick(w).(yieldPending := TickWantsSwitch(w))
  }

  /** The first of the tasks made ready while the scheduler was suspended. */
  function MoveOne(w: World): World
    requires w.pending != []
  {
    var t := w.pending[0];
    var u := MakeReady(w.(pending := w.pending[1..]), t);
    u.(yieldPending := u.yieldPending || Outranks(u, t))
  }

  function MovePending(w: World): World
    decreases |w.pending|
  {
    if w.pending == [] then w else MovePending(MoveOne(w))
  }

  function SuspendAll(w: World): World {
    w.(depth := w.depth + 1)
  }

  /** xTaskResumeAll. */
  function ResumeAll(w: World): World
    requires w.depth > 0
  {
    var u := w.(depth := w.depth - 1);
    if u.depth > 0 then u else Settle(u)
  }

  /** What the outermost resume catches up with. */
  function Settle(w: World): World {
    Replay(MovePending(w), w.pended).(pended := 0)
  }

  /** The highest priority, from `p` down, at which a task is ready. */
  function HighestFrom(ready: seq<ReadyList>, p: nat): (h: nat)
    requires p < |ready|
    ensures h <= p
    ensures forall q :: h < q <= p ==> ready[q].items == []
    ensures ready[h].items != [] || h == 0
  {
    if ready[p].items != [] || p == 0 then p else HighestFrom(ready, p - 1)
  }

  /** The next task of a ready list becomes the current one. */
  function RunFrom(w: World, h: nat): World
    requires h < |w.ready| && w.ready[h].items != []
  {
    var next := w.ready[h].Advance();
    w.(yieldPending := false, ready := w.ready[h := next], current := next.items[next.index - 1])
  }

  /** vTaskSwitchContext. */
  function Switch(w: World): World {
    if w.depth > 0 then w.(yieldPending := true)
    else if w.ready == [] then w
    else
      var h := HighestFrom(w.ready, |w.ready| - 1);
      if w.ready[h].items == [] then w else RunFrom(w, h)
  }

  /** xTaskRemoveFromEventList for the task at the head of an event list. */
  function Unblock(w: World, t: Task): World {
    var u := w.(waiting := w.waiting - {t});
    var v := if u.depth == 0 then MakeReady(u, t) else u.(pending := u.pending + [t]);
    v.(yieldPending := v.yieldPending || Outranks(v, t))
  }

  /** vTaskRemoveFromUnorderedEventList, called with the scheduler suspended. */
  function UnblockUnordered(w: World, t: Task): World {
    var u := MakeReady(w.(waiting := w.waiting - {t}), t);
    u.(yieldPending := u.yieldPending || Outranks(u, t))
  }

  /** vTaskSuspend. */
  function Suspend(w: World, t: Task): World {
    var u := ClearEvent(Detach(w, t), t);
    u.(suspended := u.suspended + [t])
  }

  /** prvTaskIsTaskSuspended: not if it has been resumed by an interrupt, or is blocked without a time-out. */
  predicate IsSuspended(w: World, t: Task) {
    t in w.suspended && t !in w.pending && t !in w.waiting
  }

  /** vTaskResume. */
  function Resume(w: World, t: Task): World {
    if t != w.current && IsSuspended(w, t) then MakeReady(w, t) else w
  }

  /** xTaskResumeFromISR. */
  function ResumeFromISR(w: World, t: Task): World {
    if !IsSuspended(w, t) then w
    else if w.depth == 0 then
      MakeReady(w.(yieldPending := w.yieldPending || Outranks(w, t)), t)
    else w.(pending := w.pending + [t])
  }

  /** vTaskDelete: a task cannot be freed while it runs. */
  function Delete(w: World, t: Task): World {
    var u := ClearEvent(Detach(w, t), t);
    if t == u.current then u.(dying := u.dying + [t]) else u.(priority := u.priority - {t})
  }

  /** prvCheckTasksWaitingTermination, one task at a time. */
  function CleanUp(w: World): World {
    if w.dying == [] then w
    else w.(dying := w.dying[1..], priority := w.priority - {w.dying[0]})
  }

  function CleanUpAll(w: World): World
    decreases |w.dying|
  {
    if w.dying == [] then w else CleanUpAll(CleanUp(w))
  }

  /** prvAddNewTaskToReadyList. */
  function Create(w: World, t: Task, p: nat): World {
    AddReady(w.(priority := w.priority[t := p]), t)
  }

  /** A change of uxPriority: only a task that is ready changes lists. */
  function Reprioritise(w: World, t: Task, p: nat): World {
    if IsReady(w, t) then AddReady(Detach(w, t).(priority := w.priority[t := p]), t)
    else w.(priority := w.priority[t := p])
  }

  // ---- the invariant -----------------------------------------------------------------------------

  /** Every task is in the ready list of its priority. */
  ghost predicate ReadyLists(w: World) {
    && (forall t :: t in w.priority ==> w.priority[t] < |w.ready|)
    && (forall p :: 0 <= p < |w.ready| ==> Distinct(w.ready[p].items))
    && (forall p, t :: 0 <= p < |w.ready| && t in w.ready[p].items ==> t in w.priority && w.priority[t] == p)
  }

  ghost predicate InOrder(s: seq<Sleeper>) {
    forall i, j :: 0 <= i < j < |s| ==> s[i].task != s[j].task && s[i].wake <= s[j].wake
  }

  /** Sleepers are in order, and wake less than a full turn of the tick counter from now. */
  ghost predicate SleepersInOrder(w: World) {
    && InOrder(w.sleeping)
    && (forall i :: 0 <= i < |w.sleeping| ==> w.now < w.sleeping[i].wake < w.now + TICK_MOD)
  }

  /** Each task's state item is in exactly one list; that of a task in `free` is in none. */
  ghost predicate Partition(w: World, free: set<Task>) {
    && Distinct(w.suspended) && Distinct(w.dying)
    && (forall t :: IsReady(w, t) ==> t !in free)
    && (forall t :: IsSleeping(w, t) ==> t in w.priority && !IsReady(w, t) && t !in free)
    && (forall t :: t in w.suspended ==> t in w.priority && !IsReady(w, t) && !IsSleeping(w, t) && t !in free)
    && (forall t :: t in w.dying ==>
          t in w.priority && !IsReady(w, t) && !IsSleeping(w, t) && t !in w.suspended && t !in free)
    && (forall t :: t in w.priority ==>
          t in free || IsReady(w, t) || IsSleeping(w, t) || t in w.suspended || t in w.dying)
  }

  /** A task on an event list or on the pending-ready list is blocked or suspended, and on one of them only. */
  ghost predicate Events(w: World) {
    && Distinct(w.pending)
    && (forall t :: t in w.waiting ==> t in w.priority && !IsReady(w, t) && t !in w.dying)
    && (forall t :: t in w.pending ==> t in w.priority && !IsReady(w, t) && t !in w.dying && t !in w.waiting)
  }

  ghost predicate Placed(w: World, free: set<Task>) {
    ReadyLists(w) && SleepersInOrder(w) && Partition(w, free)
  }

  ghost predicate Filed(w: World, free: set<Task>) {
    && Placed(w, free) && Events(w)
    && w.current in w.priority && (w.idle in free || IsReady(w, w.idle))
  }

  /** What holds between steps. */
  ghost predicate Inv(w: World) {
    && Filed(w, {})
    && (w.depth == 0 ==> w.pending == [] && w.pended == 0)
  }

  // ---- preservation ------------------------------------------------------------------------------

  lemma {:induction false} RemoveFacts(s: seq<Sleeper>, t: Task)
    requires InOrder(s)
    ensures var r := Remove(s, t);
            && InOrder(r)
            && (forall x :: x in r <==> x in s && x.task != t)
  {
    if s != [] {
      var rest := s[1..];
      assert s == [s[0]] + rest;
      if s[0].task != t {
        RemoveFacts(rest, t);
        var r := Remove(rest, t);
        forall i | 0 <= i < |r|
          ensures s[0].task != r[i].task && s[0].wake <= r[i].wake
        {
          assert r[i] in rest;
        }
      }
    }
  }

  lemma {:induction false} InsertFacts(s: seq<Sleeper>, x: Sleeper)
    requires InOrder(s) && forall y :: y in s ==> y.task != x.task
    ensures var r := Insert(s, x);
            && InOrder(r)
            && (forall y :: y in r <==> y in s || y == x)
    decreases s
  {
    if s != [] && s[0].wake <= x.wake {
      var rest := s[1..];
      assert s == [s[0]] + rest;
      InsertFacts(rest, x);
      var r := Insert(rest, x);
      forall i | 0 <= i < |r|
        ensures s[0].task != r[i].task && s[0].wake <= r[i].wake
      {
        assert r[i] in rest || r[i] == x;
      }
    }
  }

  lemma TasksOfIs(s: seq<Sleeper>, t: Task)
    ensures t in TasksOf(s) <==> exists x :: x in s && x.task == t
  {
    if t in TasksOf(s) {
      var i :| 0 <= i < |s| && TasksOf(s)[i] == t;
      assert s[i] in s;
    }
    if x :| x in s && x.task == t {
      var i :| 0 <= i < |s| && s[i] == x;
      assert TasksOf(s)[i] == t;
    }
  }

  lemma RingFacts(r: ReadyList, t: Task)
    requires Distinct(r.items)
    ensures Distinct(r.Without(t).items)
    ensures forall u :: u in r.Without(t).items <==> u in r.items && u != t
    ensures t !in r.items ==> Distinct(r.InsertEnd(t).items)
    ensures forall u :: u in r.InsertEnd(t).items <==> u in r.items || u == t
  {
    RemovedFacts(r.items, t);
    var k := if r.index == 0 then |r.items| else r.index - 1;
    assert r.items == r.items[..k] + r.items[k..];
    if t !in r.items {
      InsertKeepsDistinct(r.items, k, t);
    }
  }

  /** Only event lists and flags differ. */
  lemma SamePlaces(w: World, u: World, free: set<Task>)
    requires Filed(w, free) && Events(u)
    requires u.ready == w.ready && u.priority == w.priority && u.sleeping == w.sleeping && u.now == w.now
    requires u.suspended == w.suspended && u.dying == w.dying && u.current == w.current && u.idle == w.idle
    ensures Filed(u, free)
  {
    assert forall t: Task :: IsReady(u, t) <==> IsReady(w, t);
    assert forall t: Task :: IsSleeping(u, t) <==> IsSleeping(w, t);
  }

  lemma DetachedReady(w: World, t: Task)
    requires ReadyLists(w) && t in w.priority
    ensures ReadyLists(Detach(w, t))
    ensures forall v: Task :: IsReady(Detach(w, t), v) <==> IsReady(w, v) && v != t
  {
    RingFacts(w.ready[w.priority[t]], t);
  }

  lemma DetachedSleepers(w: World, t: Task)
    requires SleepersInOrder(w)
    ensures SleepersInOrder(Detach(w, t))
    ensures forall v: Task :: IsSleeping(Detach(w, t), v) <==> IsSleeping(w, v) && v != t
  {
    var u := Detach(w, t);
    RemoveFacts(w.sleeping, t);
    forall i | 0 <= i < |u.sleeping|
      ensures u.now < u.sleeping[i].wake < u.now + TICK_MOD
    {
      assert u.sleeping[i] in w.sleeping;
    }
    forall v: Task
      ensures IsSleeping(u, v) <==> IsSleeping(w, v) && v != t
    {
      TasksOfIs(w.sleeping, v);
      TasksOfIs(u.sleeping, v);
    }
  }

  lemma DetachFrees(w: World, t: Task)
    requires Filed(w, {}) && t in w.priority
    ensures Filed(Detach(w, t), {t})
  {
    DetachedReady(w, t);
    DetachedSleepers(w, t);
    RemovedFacts(w.suspended, t);
    RemovedFacts(w.dying, t);
  }

  lemma AddReadyFiles(w: World, t: Task)
    requires Filed(w, {t}) && t in w.priority && t !in w.waiting && t !in w.pending
    ensures Filed(AddReady(w, t), {})
  {
    var u := AddReady(w, t);
    AddedToItsList(w, t);
    assert ReadyLists(u);
    assert Partition(u, {});
  }

  lemma AddedToItsList(w: World, t: Task)
    requires ReadyLists(w) && t in w.priority && !IsReady(w, t)
    ensures var u := AddReady(w, t);
            ReadyLists(u) && forall v: Task :: IsReady(u, v) <==> IsReady(w, v) || v == t
  {
    RingFacts(w.ready[w.priority[t]], t);
  }

  lemma AddSuspendedFiles(w: World, t: Task)
    requires Filed(w, {t}) && t in w.priority && t != w.idle
    ensures Filed(w.(suspended := w.suspended + [t]), {})
  {
    var u := w.(suspended := w.suspended + [t]);
    assert forall v: Task :: IsReady(u, v) <==> IsReady(w, v);
    assert forall v: Task :: IsSleeping(u, v) <==> IsSleeping(w, v);
  }

  lemma AddDyingFiles(w: World, t: Task)
    requires Filed(w, {t}) && t in w.priority && t != w.idle && t !in w.waiting && t !in w.pending
    ensures Filed(w.(dying := w.dying + [t]), {})
  {
    var u := w.(dying := w.dying + [t]);
    assert forall v: Task :: IsReady(u, v) <==> IsReady(w, v);
    assert forall v: Task :: IsSleeping(u, v) <==> IsSleeping(w, v);
  }

  lemma AddSleepingFiles(w: World, t: Task, ticks: Tick)
    requires Filed(w, {t}) && t in w.priority && t != w.idle && ticks > 0
    ensures Filed(w.(sleeping := Insert(w.sleeping, Sleeper(t, w.now + ticks))), {})
  {
    var x := Sleeper(t, w.now + ticks);
    var u := w.(sleeping := Insert(w.sleeping, x));
    TasksOfIs(w.sleeping, t);
    InsertFacts(w.sleeping, x);
    forall v: Task
      ensures IsSleeping(u, v) <==> IsSleeping(w, v) || v == t
      ensures IsReady(u, v) <==> IsReady(w, v)
    {
      TasksOfIs(w.sleeping, v);
      TasksOfIs(u.sleeping, v);
    }
    assert SleepersInOrder(u) by {
      forall i | 0 <= i < |u.sleeping|
        ensures u.now < u.sleeping[i].wake < u.now + TICK_MOD
      {
        assert u.sleeping[i] in w.sleeping || u.sleeping[i] == x;
      }
    }
  }

  lemma ClearEventKeeps(w: World, t: Task, free: set<Task>)
    requires Filed(w, free)
    ensures Filed(ClearEvent(w, t), free)
  {
    var u := ClearEvent(w, t);
    RemovedFacts(w.pending, t);
    assert forall v: Task :: IsReady(u, v) <==> IsReady(w, v);
    SamePlaces(w, u, free);
  }

  lemma WaitKeeps(w: World, t: Task, free: set<Task>)
    requires Filed(w, free) && t in w.priority && !IsReady(w, t) && t !in w.dying && t !in w.pending
    ensures Filed(w.(waiting := w.waiting + {t}), free)
  {
    var u := w.(waiting := w.waiting + {t});
    assert forall v: Task :: IsReady(u, v) <==> IsReady(w, v);
    SamePlaces(w, u, free);
  }

  lemma PendKeeps(w: World, t: Task, yield_: bool)
    requires Filed(w, {}) && t in w.priority && !IsReady(w, t) && t !in w.dying && t !in w.pending
    ensures Filed(w.(waiting := w.waiting - {t}, pending := w.pending + [t], yieldPending := yield_), {})
  {
    var u := w.(waiting := w.waiting - {t}, pending := w.pending + [t], yieldPending := yield_);
    assert forall v: Task :: IsReady(u, v) <==> IsReady(w, v);
    SamePlaces(w, u, {});
  }

  lemma UnwaitKeeps(w: World, t: Task)
    requires Filed(w, {})
    ensures Filed(w.(waiting := w.waiting - {t}), {})
  {
    var u := w.(waiting := w.waiting - {t});
    assert forall v: Task :: IsReady(u, v) <==> IsReady(w, v);
    SamePlaces(w, u, {});
  }

  lemma YieldFlag(w: World, yield_: bool)
    requires Filed(w, {})
    ensures Filed(w.(yieldPending := yield_), {})
  {
    var u := w.(yieldPending := yield_);
    assert forall t: Task :: IsReady(u, t) <==> IsReady(w, t);
    SamePlaces(w, u, {});
  }

  lemma MakeReadyFiles(w: World, t: Task)
    requires Filed(w, {}) && t in w.priority && t !in w.waiting && t !in w.pending
    ensures Filed(MakeReady(w, t), {})
  {
    DetachFrees(w, t);
    AddReadyFiles(Detach(w, t), t);
  }

  // ---- every step keeps every task in its place ------------------------------------------------

  lemma LeaveFrees(w: World, t: Task, event: bool)
    requires Filed(w, {}) && IsReady(w, t)
    ensures Filed(Leave(w, t, event), {t})
  {
    DetachFrees(w, t);
    var u := Detach(w, t);
    if event {
      WaitKeeps(u, t, {t});
    } else {
      assert Leave(w, t, event) == u;
    }
  }

  lemma FallAsleepFiles(w: World, t: Task, ticks: Tick, indefinitely: bool)
    requires Filed(w, {t}) && t in w.priority && t != w.idle && ticks > 0
    ensures Filed(FallAsleep(w, t, ticks, indefinitely), {})
  {
    if ticks == MAX_DELAY && indefinitely {
      AddSuspendedFiles(w, t);
    } else {
      AddSleepingFiles(w, t, ticks);
    }
  }

  lemma BlockKeepsInv(w: World, ticks: Tick, indefinitely: bool, event: bool)
    requires Inv(w) && IsReady(w, w.current) && w.current != w.idle && ticks > 0
    ensures Inv(Block(w, ticks, indefinitely, event))
  {
    LeaveFrees(w, w.current, event);
    FallAsleepFiles(Leave(w, w.current, event), w.current, ticks, indefinitely);
  }

  /**
   * Blocking keeps the scheduler consistent if and only if the block time is not
   * zero: a sleeper must wake after the present tick, or the lists could not be
   * switched should the counter wrap next.
   */
  lemma BlockKeepsInvIff(w: World, ticks: Tick, indefinitely: bool, event: bool)
    requires Inv(w) && IsReady(w, w.current) && w.current != w.idle
    ensures Inv(Block(w, ticks, indefinitely, event)) <==> ticks > 0
  {
    if ticks > 0 {
      BlockKeepsInv(w, ticks, indefinitely, event);
    } else {
      SleepsForNothing(Leave(w, w.current, event), w.current, indefinitely);
    }
  }

  lemma SleepsForNothing(w: World, t: Task, indefinitely: bool)
    ensures !SleepersInOrder(FallAsleep(w, t, 0, indefinitely))
  {
    InsertKeeps(w.sleeping, Sleeper(t, w.now));
    var u := FallAsleep(w, t, 0, indefinitely);
    var i :| 0 <= i < |u.sleeping| && u.sleeping[i] == Sleeper(t, w.now);
  }

  lemma {:induction false} InsertKeeps(s: seq<Sleeper>, x: Sleeper)
    ensures x in Insert(s, x)
    decreases s
  {
    if s != [] && s[0].wake <= x.wake {
      InsertKeeps(s[1..], x);
    }
  }

  lemma SuspendKeepsInv(w: World, t: Task)
    requires Inv(w) && t in w.priority && t != w.idle
    ensures Inv(Suspend(w, t))
  {
    DetachFrees(w, t);
    ClearEventKeeps(Detach(w, t), t, {t});
    AddSuspendedFiles(ClearEvent(Detach(w, t), t), t);
  }

  lemma UnblockKeepsInv(w: World, t: Task)
    requires Inv(w) && t in w.waiting
    ensures Inv(Unblock(w, t))
  {
    if w.depth == 0 {
      UnwaitKeeps(w, t);
      var v := MakeReady(w.(waiting := w.waiting - {t}), t);
      MakeReadyFiles(w.(waiting := w.waiting - {t}), t);
      YieldFlag(v, v.yieldPending || Outranks(v, t));
    } else {
      PendKeeps(w, t, Unblock(w, t).yieldPending);
    }
  }

  lemma UnblockUnorderedKeepsInv(w: World, t: Task)
    requires Inv(w) && t in w.waiting
    ensures Inv(UnblockUnordered(w, t))
  {
    UnwaitKeeps(w, t);
    var u := MakeReady(w.(waiting := w.waiting - {t}), t);
    MakeReadyFiles(w.(waiting := w.waiting - {t}), t);
    YieldFlag(u, u.yieldPending || Outranks(u, t));
  }

  lemma ResumeKeepsInv(w: World, t: Task)
    requires Inv(w)
    ensures Inv(Resume(w, t))
  {
    if t != w.current && IsSuspended(w, t) {
      MakeReadyFiles(w, t);
    }
  }

  lemma ResumeFromISRKeepsInv(w: World, t: Task)
    requires Inv(w)
    ensures Inv(ResumeFromISR(w, t))
  {
    if IsSuspended(w, t) {
      if w.depth == 0 {
        var y := w.yieldPending || Outranks(w, t);
        YieldFlag(w, y);
        var u := w.(yieldPending := y);
        assert IsReady(u, u.idle) && !IsReady(u, t);
        MakeReadyFiles(u, t);
      } else {
        PendKeeps(w, t, w.yieldPending);
        assert w.waiting - {t} == w.waiting;
        assert w.(waiting := w.waiting - {t}, pending := w.pending + [t], yieldPending := w.yieldPending)
            == w.(pending := w.pending + [t]);
      }
    }
  }

  lemma DeleteKeepsInv(w: World, t: Task)
    requires Inv(w) && t in w.priority && t != w.idle
    ensures Inv(Delete(w, t))
  {
    DetachFrees(w, t);
    ClearEventKeeps(Detach(w, t), t, {t});
    var u := ClearEvent(Detach(w, t), t);
    RemovedFacts(w.pending, t);
    if t == u.current {
      AddDyingFiles(u, t);
    } else {
      ForgetKeeps(u, t);
    }
  }

  /** A task in no list is forgotten. */
  lemma ForgetKeeps(w: World, t: Task)
    requires Filed(w, {t}) && t in w.priority && t !in w.waiting && t !in w.pending
    requires t != w.current && t != w.idle
    ensures Filed(w.(priority := w.priority - {t}), {})
  {
    ForgetKeepsPlaces(w, w.(priority := w.priority - {t}), t);
  }

  lemma ForgetKeepsPlaces(w: World, u: World, t: Task)
    requires Placed(w, {t}) && u == w.(priority := w.priority - {t})
    ensures Placed(u, {}) && forall v: Task :: IsReady(u, v) <==> IsReady(w, v)
  {
    assert forall v: Task :: IsReady(u, v) <==> IsReady(w, v);
    assert forall v: Task :: IsSleeping(u, v) <==> IsSleeping(w, v);
  }

  lemma CleanUpKeepsInv(w: World)
    requires Inv(w) && w.current == w.idle
    ensures Inv(CleanUp(w))
  {
    if w.dying != [] {
      var t := w.dying[0];
      var u := w.(dying := w.dying[1..]);
      assert w.dying == [t] + u.dying;
      assert forall v: Task :: IsReady(u, v) <==> IsReady(w, v);
      assert forall v: Task :: IsSleeping(u, v) <==> IsSleeping(w, v);
      assert Filed(u, {t});
      ForgetKeeps(u, t);
    }
  }

  lemma CreateKeepsInv(w: World, t: Task, p: nat)
    requires Inv(w) && t !in w.priority && p < |w.ready|
    ensures Inv(Create(w, t, p))
  {
    var u := w.(priority := w.priority[t := p]);
    assert forall v: Task :: IsReady(u, v) <==> IsReady(w, v);
    assert forall v: Task :: IsSleeping(u, v) <==> IsSleeping(w, v);
    assert Filed(u, {t});
    AddReadyFiles(u, t);
  }

  lemma SetPriorityKeeps(w: World, t: Task, p: nat, free: set<Task>)
    requires Filed(w, free) && t in w.priority && !IsReady(w, t) && p < |w.ready|
    ensures var u := w.(priority := w.priority[t := p]);
            Filed(u, free) && !IsReady(u, t)
  {
    var u := w.(priority := w.priority[t := p]);
    assert forall v: Task :: IsReady(u, v) <==> IsReady(w, v);
    assert forall v: Task :: IsSleeping(u, v) <==> IsSleeping(w, v);
  }

  lemma ReprioritiseKeepsInv(w: World, t: Task, p: nat)
    requires Inv(w) && t in w.priority && p < |w.ready|
    ensures Inv(Reprioritise(w, t, p))
  {
    if IsReady(w, t) {
      DetachFrees(w, t);
      SetPriorityKeeps(Detach(w, t), t, p, {t});
      AddReadyFiles(Detach(w, t).(priority := w.priority[t := p]), t);
    } else {
      SetPriorityKeeps(w, t, p, {});
    }
  }

  lemma HeadFrees(w: World)
    requires Filed(w, {}) && w.sleeping != []
    ensures Filed(w.(sleeping := w.sleeping[1..]), {w.sleeping[0].task})
    ensures w.sleeping[0].task in w.priority
  {
    var t := w.sleeping[0].task;
    var u := w.(sleeping := w.sleeping[1..]);
    assert w.sleeping == [w.sleeping[0]] + u.sleeping;
    forall v: Task
      ensures IsSleeping(u, v) <==> IsSleeping(w, v) && v != t
      ensures IsReady(u, v) <==> IsReady(w, v)
    {
      TasksOfIs(w.sleeping, v);
      TasksOfIs(u.sleeping, v);
    }
    assert IsSleeping(w, t) by {
      TasksOfIs(w.sleeping, t);
    }
  }

  lemma WakeHeadFiles(w: World)
    requires Filed(w, {}) && w.sleeping != []
    ensures Filed(WakeHead(w), {})
  {
    var t := w.sleeping[0].task;
    var u := w.(sleeping := w.sleeping[1..]);
    HeadFrees(w);
    ClearEventKeeps(u, t, {t});
    RemovedFacts(u.pending, t);
    AddReadyFiles(ClearEvent(u, t), t);
  }

  /** Waking changes nothing but sleepers, ready lists and events. */
  lemma {:induction false} WakeUpToCounts(w: World, limit: nat)
    ensures var u := WakeUpTo(w, limit);
            && u.now == w.now && u.depth == w.depth && u.pended == w.pended && u.current == w.current
            && u.priority == w.priority && |u.ready| == |w.ready|
            && (w.pending == [] ==> u.pending == [])
    decreases |w.sleeping|
  {
    if w.sleeping != [] && w.sleeping[0].wake <= limit {
      WakeUpToCounts(WakeHead(w), limit);
    }
  }

  lemma {:induction false} WakeUpToFiles(w: World, limit: nat)
    requires Filed(w, {})
    ensures var u := WakeUpTo(w, limit);
            Filed(u, {}) && (u.sleeping != [] ==> u.sleeping[0].wake > limit)
    decreases |w.sleeping|
  {
    if w.sleeping != [] && w.sleeping[0].wake <= limit {
      WakeHeadFiles(w);
      WakeUpToFiles(WakeHead(w), limit);
    }
  }

  lemma TickCounts(w: World)
    ensures var u := IncrementTick(w);
            && u.depth == w.depth && u.current == w.current
            && (w.pending == [] ==> u.pending == [])
            && u.now + u.pended == w.now + w.pended + 1
            && (w.depth == 0 ==> u.pended == w.pended)
  {
    WakeUpToCounts(w, w.now + 1);
  }

  lemma TickFiles(w: World)
    requires Filed(w, {})
    ensures Filed(IncrementTick(w), {})
  {
    if w.depth == 0 {
      var v, now := WakeUpTo(w, w.now + 1), w.now + 1;
      assert IncrementTick(w) == v.(now := now);
      WakeUpToFiles(w, now);
      WakeUpToCounts(w, now);
      ClockAdvances(v, now);
    } else {
      assert IncrementTick(w) == w.(pended := w.pended + 1);
      PendedKeeps(w, w.pended + 1);
    }
  }

  lemma TickKeepsInv(w: World)
    requires Inv(w)
    ensures Inv(IncrementTick(w))
  {
    TickFiles(w);
    TickCounts(w);
  }

  lemma PendedKeeps(w: World, pended: nat)
    requires Filed(w, {})
    ensures Filed(w.(pended := pended), {})
  {
    var u := w.(pended := pended);
    assert forall v: Task :: IsReady(u, v) <==> IsReady(w, v);
    SamePlaces(w, u, {});
  }

  lemma ClockAdvances(w: World, now: nat)
    requires Filed(w, {}) && now == w.now + 1 && (w.sleeping != [] ==> w.sleeping[0].wake > now)
    ensures Filed(w.(now := now), {})
  {
    var u := w.(now := now);
    assert forall v: Task :: IsReady(u, v) <==> IsReady(w, v);
    assert forall v: Task :: IsSleeping(u, v) <==> IsSleeping(w, v);
    assert SleepersInOrder(u);
  }

  lemma SwitchKeepsInv(w: World)
    requires Inv(w)
    ensures Inv(Switch(w))
  {
    if w.depth > 0 {
      YieldFlag(w, true);
    } else {
      IdleIsReady(w);
      AdvanceKeeps(w, HighestFrom(w.ready, |w.ready| - 1));
    }
  }

  /** Stepping a ready list on changes which task runs, not where it is. */
  lemma AdvanceKeeps(w: World, h: nat)
    requires Filed(w, {}) && h < |w.ready| && w.ready[h].items != []
    ensures Filed(RunFrom(w, h), {})
  {
    var next := w.ready[h].Advance();
    var u := RunFrom(w, h);
    assert next.items == w.ready[h].items && next.items[next.index - 1] in w.ready[h].items;
    assert forall v: Task :: IsReady(u, v) <==> IsReady(w, v);
    assert forall v: Task :: IsSleeping(u, v) <==> IsSleeping(w, v);
  }

  /** As long as the idle task is ready there is a task to run. */
  lemma IdleIsReady(w: World)
    requires Filed(w, {})
    ensures w.ready != []
    ensures w.ready[HighestFrom(w.ready, |w.ready| - 1)].items != []
  {
    assert w.priority[w.idle] < |w.ready|;
    assert w.ready[w.priority[w.idle]].items != [];
  }

  lemma MoveOneFiles(w: World)
    requires Filed(w, {}) && w.pending != []
    ensures Filed(MoveOne(w), {})
  {
    var t := w.pending[0];
    var u := w.(pending := w.pending[1..]);
    assert w.pending == [t] + u.pending;
    assert forall v: Task :: IsReady(u, v) <==> IsReady(w, v);
    SamePlaces(w, u, {});
    MakeReadyFiles(u, t);
    var v := MakeReady(u, t);
    YieldFlag(v, v.yieldPending || Outranks(v, t));
  }

  lemma {:induction false} MovePendingFiles(w: World)
    requires Filed(w, {})
    ensures var u := MovePending(w);
            && Filed(u, {}) && u.pending == []
            && u.now == w.now && u.depth == w.depth && u.pended == w.pended && u.current == w.current
    decreases |w.pending|
  {
    if w.pending != [] {
      MoveOneFiles(w);
      MovePendingFiles(MoveOne(w));
    }
  }

  lemma {:induction false} ReplayCounts(w: World, ticks: nat)
    requires w.depth == 0
    ensures var u := Replay(w, ticks);
            && u.depth == 0 && u.current == w.current && u.now == w.now + ticks && u.pended == w.pended
            && (w.pending == [] ==> u.pending == [])
    decreases ticks
  {
    if ticks > 0 {
      ReplayCounts(w, ticks - 1);
      TickCounts(Replay(w, ticks - 1));
    }
  }

  lemma ReplayOneFiles(w: World)
    requires Filed(w, {})
    ensures Filed(ReplayOne(w), {})
  {
    TickFiles(w);
    YieldFlag(IncrementTick(w), TickWantsSwitch(w));
  }

  lemma {:induction false} ReplayFiles(w: World, ticks: nat, u: World)
    requires Filed(w, {}) && u == Replay(w, ticks)
    ensures Filed(u, {})
    decreases ticks
  {
    if ticks > 0 {
      var v := Replay(w, ticks - 1);
      ReplayFiles(w, ticks - 1, v);
      ReplayOneFiles(v);
    }
  }

  lemma SuspendAllKeepsInv(w: World)
    requires Inv(w)
    ensures Inv(SuspendAll(w))
  {
    DepthKeeps(w, SuspendAll(w));
  }

  lemma DepthKeeps(w: World, u: World)
    requires Filed(w, {}) && u == w.(depth := u.depth)
    ensures Filed(u, {})
  {
    assert forall v: Task :: IsReady(u, v) <==> IsReady(w, v);
    SamePlaces(w, u, {});
  }

  lemma SettleFiles(w: World)
    requires Filed(w, {}) && w.depth == 0
    ensures var u := Settle(w);
            Filed(u, {}) && u.depth == 0 && u.pended == 0 && u.pending == [] && u.now == w.now + w.pended
  {
    var v := Replay(MovePending(w), w.pended);
    MovePendingFiles(w);
    ReplayFiles(MovePending(w), w.pended, v);
    ReplayCounts(MovePending(w), w.pended);
    PendedKeeps(v, 0);
  }

  lemma ResumeAllKeepsInv(w: World)
    requires Inv(w) && w.depth > 0
    ensures Inv(ResumeAll(w))
  {
    var u := w.(depth := w.depth - 1);
    DepthKeeps(w, u);
    if u.depth == 0 {
      SettleFiles(u);
    }
  }

  // ---- the start ------------------------------------------------------------------------------------

  /** The scheduler with nothing but the idle task. */
  function Booted(priorities: nat, idle: Task): World
    requires priorities > 0
  {
    World(0, [], seq(priorities, i => if i == 0 then Ring([idle], 0) else Ring([], 0)), [], [], map[idle := 0], {}, [],
          idle, idle, 0, 0, false)
  }

  lemma BootedInv(priorities: nat, idle: Task)
    requires priorities > 0
    ensures Inv(Booted(priorities, idle))
  {
    var w := Booted(priorities, idle);
    assert IsReady(w, idle) && w.priority.Keys == {idle};
    assert forall t: Task :: !IsSleeping(w, t);
  }
}
