/**
 * What each call of the scheduler does, told by where tasks are, which priorities
 * they have and whether a switch has been asked for.
 */
module SchedulerCalls {
  import opened Ticks
  import opened Rings
  import opened Schedule

  /** Nothing about task `v` has changed. */
  ghost predicate Untouched(w: World, u: World, v: Task) {
    && (v in u.priority <==> v in w.priority) && (v in w.priority ==> u.priority[v] == w.priority[v])
    && (IsReady(u, v) <==> IsReady(w, v))
    && (forall k: nat :: Sleeper(v, k) in u.sleeping <==> Sleeper(v, k) in w.sleeping)
    && (v in u.suspended <==> v in w.suspended) && (v in u.dying <==> v in w.dying)
    && (v in u.waiting <==> v in w.waiting) && (v in u.pending <==> v in w.pending)
  }

  /** No task but `t` has been touched, and neither have the clock and the current task. */
  ghost predicate OnlyTouches(w: World, u: World, t: Task) {
    && (forall v: Task :: v != t ==> Untouched(w, u, v))
    && u.now == w.now && u.depth == w.depth && u.pended == w.pended && u.current == w.current && u.idle == w.idle
  }

  /** The task is ready, and in no other list. */
  ghost predicate OnlyReady(w: World, t: Task) {
    IsReady(w, t) && !IsSleeping(w, t) && t !in w.suspended && t !in w.dying
  }

  lemma DetachTouches(w: World, t: Task, v: Task)
    requires Filed(w, {}) && t in w.priority && v != t
    ensures Untouched(w, Detach(w, t), v)
  {
    DetachedReady(w, t);
    RemoveFacts(w.sleeping, t);
    RemovedFacts(w.suspended, t);
    RemovedFacts(w.dying, t);
  }

  lemma AddReadyTouches(w: World, t: Task, v: Task)
    requires ReadyLists(w) && t in w.priority && !IsReady(w, t) && v != t
    ensures Untouched(w, AddReady(w, t), v)
  {
    AddedToItsList(w, t);
  }

  lemma MakeReadyTouches(w: World, t: Task, v: Task)
    requires Filed(w, {}) && t in w.priority && v != t
    ensures Untouched(w, MakeReady(w, t), v)
  {
    DetachFrees(w, t);
    DetachTouches(w, t, v);
    AddReadyTouches(Detach(w, t), t, v);
  }

  /** The task leaves whatever list it is in for its ready list. */
  lemma MadeReady(w: World, t: Task)
    requires Filed(w, {}) && t in w.priority
    ensures OnlyReady(MakeReady(w, t), t)
  {
    DetachFrees(w, t);
    DetachedSleepers(w, t);
    AddedToItsList(Detach(w, t), t);
    RemovedFacts(w.suspended, t);
    RemovedFacts(w.dying, t);
  }

  /**
   * xTaskRemoveFromEventList: the task an event is for leaves the event list, and is
   * ready at once while the scheduler runs, or else held pending; a switch is asked
   * for if its priority is higher than that of the current task.
   */
  lemma EventReadies(w: World, t: Task)
    requires Inv(w) && t in w.waiting
    ensures var u := Unblock(w, t);
            && t !in u.waiting && u.priority == w.priority
            && (w.depth == 0 ==> OnlyReady(u, t) && u.pending == w.pending)
            && (w.depth > 0 ==> u.pending == w.pending + [t] && !IsReady(u, t))
            && (u.yieldPending <==> w.yieldPending || w.priority[t] > w.priority[w.current])
    ensures OnlyTouches(w, Unblock(w, t), t)
  {
    var u, a := Unblock(w, t), w.(waiting := w.waiting - {t});
    UnwaitKeeps(w, t);
    if w.depth == 0 {
      MadeReady(a, t);
    }
    forall v: Task | v != t
      ensures Untouched(w, u, v)
    {
      if w.depth == 0 {
        MakeReadyTouches(a, t, v);
      }
    }
  }

  /** vTaskRemoveFromUnorderedEventList makes the task ready at once. */
  lemma UnorderedEventReadies(w: World, t: Task)
    requires Inv(w) && t in w.waiting
    ensures var u := UnblockUnordered(w, t);
            && t !in u.waiting && u.priority == w.priority && OnlyReady(u, t) && u.pending == w.pending
            && (u.yieldPending <==> w.yieldPending || w.priority[t] > w.priority[w.current])
    ensures OnlyTouches(w, UnblockUnordered(w, t), t)
  {
    var u, a := UnblockUnordered(w, t), w.(waiting := w.waiting - {t});
    UnwaitKeeps(w, t);
    MadeReady(a, t);
    forall v: Task | v != t
      ensures Untouched(w, u, v)
    {
      MakeReadyTouches(a, t, v);
    }
  }

  /** The first loop of xTaskResumeAll makes the first of the pending tasks ready. */
  lemma PendingReadied(w: World)
    requires Filed(w, {}) && w.pending != []
    ensures var t, u := w.pending[0], MoveOne(w);
            && OnlyReady(u, t) && u.pending == w.pending[1..] && u.priority == w.priority && u.waiting == w.waiting
            && (u.yieldPending <==> w.yieldPending || w.priority[t] > w.priority[w.current])
    ensures OnlyTouches(w, MoveOne(w), w.pending[0])
  {
    var t, u, a := w.pending[0], MoveOne(w), w.(pending := w.pending[1..]);
    assert w.pending == [t] + a.pending;
    PendingShrinks(w);
    MadeReady(a, t);
    forall v: Task | v != t
      ensures Untouched(w, u, v)
    {
      MakeReadyTouches(a, t, v);
    }
  }

  lemma PendingShrinks(w: World)
    requires Filed(w, {}) && w.pending != []
    ensures Filed(w.(pending := w.pending[1..]), {})
  {
    var u := w.(pending := w.pending[1..]);
    assert w.pending == [w.pending[0]] + u.pending;
    assert forall v: Task :: IsReady(u, v) <==> IsReady(w, v);
    SamePlaces(w, u, {});
  }

  /** The task is ready, or will be as soon as the scheduler is resumed. */
  predicate Released(w: World, t: Task) {
    IsReady(w, t) || t in w.pending
  }

  lemma OneMoreReady(w: World, u: World, t: Task)
    requires Filed(w, {}) && w.pending != [] && u == MoveOne(w)
    ensures Filed(u, {}) && (Released(u, t) <==> Released(w, t)) && MovePending(w) == MovePending(u)
    ensures |u.pending| < |w.pending|
  {
    PendingReadied(w);
    MoveOneFiles(w);
    assert w.pending == [w.pending[0]] + w.pending[1..];
    assert t != w.pending[0] ==> Untouched(w, u, t);
  }

  lemma {:induction false} PendingStaysReleased(w: World, t: Task)
    requires Filed(w, {})
    ensures Released(MovePending(w), t) <==> Released(w, t)
    decreases |w.pending|
  {
    if w.pending != [] {
      OneMoreReady(w, MoveOne(w), t);
      PendingStaysReleased(MoveOne(w), t);
    }
  }

  /** The whole loop makes every pending task ready and no other. */
  lemma AllPendingReadied(w: World, t: Task)
    requires Filed(w, {})
    ensures IsReady(MovePending(w), t) <==> IsReady(w, t) || t in w.pending
  {
    PendingStaysReleased(w, t);
    MovePendingFiles(w);
  }

  /** A switch is asked for, or one of the pending tasks has a higher priority than the current task. */
  ghost predicate WantsSwitch(w: World) {
    || w.yieldPending
    || exists t :: t in w.pending && t in w.priority && w.current in w.priority
                   && w.priority[t] > w.priority[w.current]
  }

  lemma OneMoreWantsSwitch(w: World, u: World)
    requires Filed(w, {}) && w.pending != [] && u == MoveOne(w)
    ensures WantsSwitch(u) <==> WantsSwitch(w)
  {
    PendingReadied(w);
    assert w.pending == [w.pending[0]] + u.pending;
  }

  lemma {:induction false} PendingStillWantsSwitch(w: World)
    requires Filed(w, {})
    ensures WantsSwitch(MovePending(w)) <==> WantsSwitch(w)
    decreases |w.pending|
  {
    if w.pending != [] {
      OneMoreWantsSwitch(w, MoveOne(w));
      OneMoreReady(w, MoveOne(w), w.pending[0]);
      PendingStillWantsSwitch(MoveOne(w));
    }
  }

  /** A switch is asked for afterwards if one of them has a higher priority than the current task. */
  lemma PendingAsksForSwitch(w: World)
    requires Filed(w, {})
    ensures MovePending(w).yieldPending <==>
            w.yieldPending || exists t :: t in w.pending && w.priority[t] > w.priority[w.current]
  {
    PendingStillWantsSwitch(w);
    MovePendingFiles(w);
  }

  /**
   * vTaskResume makes a task ready if vTaskSuspend has suspended it: not the current
   * task, not one that waits for an event, and not one already resumed from an
   * interrupt.  Otherwise it does nothing.
   */
  lemma ResumeReadies(w: World, t: Task)
    requires Inv(w)
    ensures var u := Resume(w, t);
            if t in w.suspended && t != w.current && t !in w.waiting && t !in w.pending
            then OnlyReady(u, t) && u.priority == w.priority && OnlyTouches(w, u, t) && u.yieldPending == w.yieldPending
            else u == w
  {
    if t in w.suspended && t != w.current && t !in w.waiting && t !in w.pending {
      MadeReady(w, t);
      forall v: Task | v != t
        ensures Untouched(w, Resume(w, t), v)
      {
        MakeReadyTouches(w, t, v);
      }
    }
  }

  /** xTaskResumeFromISR does the same, but holds the task pending while the scheduler is suspended. */
  lemma ResumeFromISRReadies(w: World, t: Task)
    requires Inv(w)
    ensures var u := ResumeFromISR(w, t);
            if t in w.suspended && t !in w.waiting && t !in w.pending then
              && OnlyTouches(w, u, t) && u.priority == w.priority
              && (w.depth == 0 ==>
                    && OnlyReady(u, t)
                    && (u.yieldPending <==> w.yieldPending || w.priority[t] > w.priority[w.current]))
              && (w.depth > 0 ==> u.pending == w.pending + [t] && u.yieldPending == w.yieldPending)
            else u == w
  {
    if t in w.suspended && t !in w.waiting && t !in w.pending && w.depth == 0 {
      var y := w.yieldPending || Outranks(w, t);
      var a := w.(yieldPending := y);
      YieldFlag(w, y);
      MadeReady(a, t);
      forall v: Task | v != t
        ensures Untouched(w, ResumeFromISR(w, t), v)
      {
        MakeReadyTouches(a, t, v);
      }
    }
  }

  /** vTaskSuspend: the task is in the suspended list and in no other, and no event is for it. */
  lemma SuspendHolds(w: World, t: Task)
    requires Inv(w) && t in w.priority
    ensures var u := Suspend(w, t);
            && t in u.suspended && !IsReady(u, t) && !IsSleeping(u, t) && t !in u.dying
            && t !in u.waiting && t !in u.pending
            && u.priority == w.priority && u.yieldPending == w.yieldPending
    ensures OnlyTouches(w, Suspend(w, t), t)
  {
    var d, u := Detach(w, t), Suspend(w, t);
    DetachFrees(w, t);
    RemovedFacts(w.pending, t);
    DetachedReady(w, t);
    DetachedSleepers(w, t);
    forall v: Task | v != t
      ensures Untouched(w, u, v)
    {
      DetachTouches(w, t, v);
    }
  }

  /** vTaskDelete: the task is forgotten, or waits for its termination if it is the one that runs. */
  lemma DeleteForgets(w: World, t: Task)
    requires Inv(w) && t in w.priority && t !in w.dying
    ensures var u := Delete(w, t);
            && !IsReady(u, t) && !IsSleeping(u, t) && t !in u.suspended && t !in u.waiting && t !in u.pending
            && (if t == w.current then t in u.dying && t in u.priority else t !in u.dying && t !in u.priority)
    ensures OnlyTouches(w, Delete(w, t), t)
  {
    var u := Delete(w, t);
    DetachFrees(w, t);
    RemovedFacts(w.pending, t);
    RemovedFacts(w.dying, t);
    DetachedReady(w, t);
    DetachedSleepers(w, t);
    forall v: Task | v != t
      ensures Untouched(w, u, v)
    {
      DetachTouches(w, t, v);
    }
  }

  /** The idle task frees the first of the tasks that wait for their termination. */
  lemma CleanUpForgets(w: World)
    requires Inv(w) && w.dying != []
    ensures var u := CleanUp(w);
            u.dying == w.dying[1..] && w.dying[0] !in u.priority && w.dying[0] !in u.dying
    ensures OnlyTouches(w, CleanUp(w), w.dying[0])
  {
    assert w.dying == [w.dying[0]] + w.dying[1..];
    forall v: Task | v != w.dying[0]
      ensures Untouched(w, CleanUp(w), v)
    {
    }
  }

  /** A new task is ready at the priority it is created with. */
  lemma CreateReadies(w: World, t: Task, p: nat)
    requires Inv(w) && t !in w.priority && p < |w.ready|
    ensures var u := Create(w, t, p);
            && t in u.priority && u.priority[t] == p && OnlyReady(u, t)
            && t !in u.waiting && t !in u.pending && u.yieldPending == w.yieldPending
    ensures OnlyTouches(w, Create(w, t, p), t)
  {
    var a := w.(priority := w.priority[t := p]);
    assert forall v: Task :: IsReady(a, v) <==> IsReady(w, v);
    AddedToItsList(a, t);
    forall v: Task | v != t
      ensures Untouched(w, Create(w, t, p), v)
    {
      AddReadyTouches(a, t, v);
    }
  }

  /** A change of priority moves a ready task to its new list, and leaves any task as blocked as it was. */
  lemma ReprioritiseMoves(w: World, t: Task, p: nat)
    requires Inv(w) && t in w.priority && p < |w.ready|
    ensures var u := Reprioritise(w, t, p);
            && u.priority == w.priority[t := p]
            && (if IsReady(w, t) then OnlyReady(u, t)
                else !IsReady(u, t) && Untouched(w, u.(priority := w.priority), t))
            && u.yieldPending == w.yieldPending
    ensures OnlyTouches(w, Reprioritise(w, t, p), t)
  {
    if IsReady(w, t) {
      ReadyMoves(w, t, p);
    } else {
      BlockedStays(w, t, p);
    }
  }

  lemma BlockedStays(w: World, t: Task, p: nat)
    requires Inv(w) && t in w.priority && !IsReady(w, t) && p < |w.ready|
    ensures var u := Reprioritise(w, t, p);
            !IsReady(u, t) && Untouched(w, u.(priority := w.priority), t) && OnlyTouches(w, u, t)
  {
    var u := Reprioritise(w, t, p);
    SetPriorityKeeps(w, t, p, {});
    assert forall v: Task :: v != t ==> (IsReady(u, v) <==> IsReady(w, v));
  }

  lemma ReadyMoves(w: World, t: Task, p: nat)
    requires Inv(w) && IsReady(w, t) && p < |w.ready|
    ensures OnlyReady(Reprioritise(w, t, p), t) && OnlyTouches(w, Reprioritise(w, t, p), t)
  {
    var d := Detach(w, t);
    var a := d.(priority := w.priority[t := p]);
    DetachFrees(w, t);
    SetPriorityKeeps(d, t, p, {t});
    AddedToItsList(a, t);
    DetachedSleepers(w, t);
    RemovedFacts(w.suspended, t);
    RemovedFacts(w.dying, t);
    forall v: Task | v != t
      ensures Untouched(w, Reprioritise(w, t, p), v)
    {
      DetachTouches(w, t, v);
      assert Untouched(d, a, v);
      AddReadyTouches(a, t, v);
    }
  }

  /**
   * Blocking: the current task sleeps until `ticks` from now, or is put with the
   * suspended tasks if it may sleep for ever; it waits for an event if it was put on
   * an event list.
   */
  lemma BlockFiles(w: World, ticks: Tick, indefinitely: bool, event: bool)
    requires Inv(w) && IsReady(w, w.current) && w.current != w.idle
    ensures var t, u := w.current, Block(w, ticks, indefinitely, event);
            && !IsReady(u, t) && (t in u.waiting <==> event) && u.pending == w.pending && u.priority == w.priority
            && (if ticks == MAX_DELAY && indefinitely then t in u.suspended && !IsSleeping(u, t)
                else Sleeper(t, w.now + ticks) in u.sleeping && t !in u.suspended)
            && u.yieldPending == w.yieldPending
    ensures OnlyTouches(w, Block(w, ticks, indefinitely, event), w.current)
  {
    var t := w.current;
    var d := Leave(w, t, event);
    DetachFrees(w, t);
    DetachedReady(w, t);
    TasksOfIs(d.sleeping, t);
    RemovedFacts(w.suspended, t);
    InsertFacts(d.sleeping, Sleeper(t, w.now + ticks));
    forall v: Task | v != t
      ensures Untouched(w, Block(w, ticks, indefinitely, event), v)
    {
      BlockTouches(w, ticks, indefinitely, event, v);
    }
  }

  lemma BlockTouches(w: World, ticks: Tick, indefinitely: bool, event: bool, v: Task)
    requires Inv(w) && IsReady(w, w.current) && v != w.current
    ensures Untouched(w, Block(w, ticks, indefinitely, event), v)
  {
    var t := w.current;
    var d := Leave(w, t, event);
    DetachFrees(w, t);
    DetachTouches(w, t, v);
    TasksOfIs(d.sleeping, t);
    InsertFacts(d.sleeping, Sleeper(t, w.now + ticks));
  }

  /** A task that sleeps and is due by `limit`. */
  ghost predicate Due(w: World, t: Task, limit: nat) {
    exists k: nat :: k <= limit && Sleeper(t, k) in w.sleeping
  }

  lemma HeadWoken(w: World)
    requires Filed(w, {}) && w.sleeping != []
    ensures var t, u := w.sleeping[0].task, WakeHead(w);
            && OnlyReady(u, t) && t !in u.waiting && t !in u.pending
            && u.priority == w.priority && u.sleeping == w.sleeping[1..] && u.yieldPending == w.yieldPending
    ensures OnlyTouches(w, WakeHead(w), w.sleeping[0].task)
  {
    var t, u := w.sleeping[0].task, WakeHead(w);
    var a := w.(sleeping := w.sleeping[1..]);
    assert w.sleeping == [w.sleeping[0]] + a.sleeping;
    HeadFrees(w);
    ClearEventKeeps(a, t, {t});
    RemovedFacts(w.pending, t);
    AddedToItsList(ClearEvent(a, t), t);
    forall v: Task | v != t
      ensures Untouched(w, u, v)
    {
      assert Untouched(w, ClearEvent(a, t), v);
      AddReadyTouches(ClearEvent(a, t), t, v);
    }
  }

  lemma NobodyDue(w: World, t: Task, limit: nat)
    requires InOrder(w.sleeping) && (w.sleeping == [] || w.sleeping[0].wake > limit)
    ensures !Due(w, t, limit)
  {
  }

  lemma OthersStayDue(w: World, t: Task, limit: nat)
    requires Filed(w, {}) && w.sleeping != [] && t != w.sleeping[0].task
    ensures Untouched(w, WakeHead(w), t) && (Due(w, t, limit) <==> Due(WakeHead(w), t, limit))
  {
    HeadWoken(w);
    assert Untouched(w, WakeHead(w), t);
  }

  lemma HeadIsAwake(w: World, limit: nat)
    requires Filed(w, {}) && w.sleeping != [] && w.sleeping[0].wake <= limit
    ensures var t, u := w.sleeping[0].task, WakeHead(w);
            && Due(w, t, limit) && !Due(u, t, limit)
            && OnlyReady(u, t) && t !in u.waiting && t !in u.pending
  {
    var t, u := w.sleeping[0].task, WakeHead(w);
    HeadWoken(w);
    assert Sleeper(t, w.sleeping[0].wake) in w.sleeping;
    TasksOfIs(u.sleeping, t);
  }

  /** Waking up to `limit` makes every task that is due ready, out of any event list, and touches no other. */
  lemma {:induction false} WokenOrUntouched(w: World, limit: nat, u: World, t: Task)
    requires Filed(w, {}) && u == WakeUpTo(w, limit)
    ensures if Due(w, t, limit) then OnlyReady(u, t) && t !in u.waiting && t !in u.pending
            else Untouched(w, u, t)
    decreases |w.sleeping|
  {
    if w.sleeping != [] && w.sleeping[0].wake <= limit {
      WakeHeadFiles(w);
      WokenOrUntouched(WakeHead(w), limit, u, t);
      if t == w.sleeping[0].task {
        HeadIsAwake(w, limit);
        StaysOnlyReady(WakeHead(w), u, t);
      } else {
        OthersStayDue(w, t, limit);
      }
    } else {
      NobodyDue(w, t, limit);
    }
  }

  lemma StaysOnlyReady(w: World, u: World, t: Task)
    requires Untouched(w, u, t) && OnlyReady(w, t)
    ensures OnlyReady(u, t)
  {
    forall x | x in u.sleeping && x.task == t
      ensures x in w.sleeping
    {
      assert x == Sleeper(t, x.wake);
    }
    TasksOfIs(w.sleeping, t);
    TasksOfIs(u.sleeping, t);
  }

  /**
   * A tick while the scheduler runs: time moves on by one, the tasks that are due
   * are ready, and nothing happens to any other; while it is suspended the tick is
   * only counted.
   */
  lemma TickWakes(w: World, t: Task)
    requires Inv(w)
    ensures var u := IncrementTick(w);
            if w.depth > 0 then u == w.(pended := w.pended + 1)
            else
              && u.now == w.now + 1
              && if Due(w, t, w.now + 1) then OnlyReady(u, t) && t !in u.waiting && t !in u.pending
                 else Untouched(w, u, t)
  {
    if w.depth == 0 {
      var v := WakeUpTo(w, w.now + 1);
      WokenOrUntouched(w, w.now + 1, v, t);
      assert IsReady(v.(now := w.now + 1), t) <==> IsReady(v, t);
    }
  }

  /** The idle task frees all tasks that wait for their termination, and touches no other. */
  lemma {:induction false} CleanUpAllForgets(w: World, u: World, t: Task)
    requires Inv(w) && w.current == w.idle && u == CleanUpAll(w)
    ensures u.dying == []
    ensures if t in w.dying then t !in u.priority else Untouched(w, u, t)
    decreases |w.dying|
  {
    if w.dying != [] {
      var v := CleanUp(w);
      CleanUpForgets(w);
      CleanUpKeepsInv(w);
      CleanUpAllForgets(v, u, t);
      assert w.dying == [w.dying[0]] + v.dying;
      assert t != w.dying[0] ==> Untouched(w, v, t);
    }
  }

  /** A switch changes which task runs, and nothing about any task. */
  lemma SwitchMovesNobody(w: World, t: Task)
    requires Inv(w)
    ensures Untouched(w, Switch(w), t)
    ensures if w.depth > 0 then Switch(w) == w.(yieldPending := true) else !Switch(w).yieldPending
  {
    if w.depth == 0 {
      IdleIsReady(w);
    }
  }

  // ---- preemption ---------------------------------------------------------------------------------

  lemma {:induction false} DueOutranksIs(w: World, s: seq<Sleeper>, limit: nat)
    requires InOrder(s)
    ensures DueOutranks(w, s, limit) <==> exists x :: x in s && x.wake <= limit && Outranks(w, x.task)
    decreases s
  {
    if s != [] && s[0].wake <= limit {
      assert s == [s[0]] + s[1..];
      DueOutranksIs(w, s[1..], limit);
    }
  }

  lemma TwoInList(s: seq<Task>)
    requires Distinct(s)
    ensures |s| > 1 <==> exists a, b :: a in s && b in s && a != b
  {
    if |s| > 1 {
      assert s[0] in s && s[1] in s && s[0] != s[1];
    }
  }

  /** The tick after `w` wakes a task of higher priority than the current one. */
  ghost predicate WakesHigher(w: World) {
    exists t :: Due(w, t, w.now + 1) && t in w.priority && w.current in w.priority
                && w.priority[t] > w.priority[w.current]
  }

  /** Two tasks are ready at priority `p`. */
  ghost predicate SharesPriority(u: World, p: nat) {
    exists a, b :: IsReady(u, a) && IsReady(u, b) && a != b && u.priority[a] == p && u.priority[b] == p
  }

  lemma DueOutranksMeans(w: World)
    requires InOrder(w.sleeping)
    ensures DueOutranks(w, w.sleeping, w.now + 1) <==> WakesHigher(w)
  {
    DueOutranksIs(w, w.sleeping, w.now + 1);
    if x :| x in w.sleeping && x.wake <= w.now + 1 && Outranks(w, x.task) {
      SleeperWakes(w, x);
    }
    if WakesHigher(w) {
      HigherIsSleeper(w);
    }
  }

  lemma SleeperWakes(w: World, x: Sleeper)
    requires x in w.sleeping && x.wake <= w.now + 1 && Outranks(w, x.task)
    ensures WakesHigher(w)
  {
    assert x == Sleeper(x.task, x.wake);
    assert Due(w, x.task, w.now + 1);
  }

  lemma HigherIsSleeper(w: World)
    requires WakesHigher(w)
    ensures exists x :: x in w.sleeping && x.wake <= w.now + 1 && Outranks(w, x.task)
  {
    var t :| Due(w, t, w.now + 1) && t in w.priority && w.current in w.priority
             && w.priority[t] > w.priority[w.current];
    var k: nat :| k <= w.now + 1 && Sleeper(t, k) in w.sleeping;
    assert Outranks(w, Sleeper(t, k).task);
  }

  lemma SharesPriorityIs(u: World, p: nat)
    requires ReadyLists(u) && p < |u.ready|
    ensures |u.ready[p].items| > 1 <==> SharesPriority(u, p)
  {
    var items := u.ready[p].items;
    TwoInList(items);
    forall t: Task
      ensures t in items <==> IsReady(u, t) && u.priority[t] == p
    {
    }
    if SharesPriority(u, p) {
      var a, b :| IsReady(u, a) && IsReady(u, b) && a != b && u.priority[a] == p && u.priority[b] == p;
      assert a in items && b in items;
    }
  }

  /**
   * A tick asks for a switch if and only if one was asked for already, it wakes a
   * task of higher priority than the current one, or two tasks are then ready at the
   * priority of the current one.
   */
  lemma TickAsksForSwitch(w: World, u: World)
    requires Filed(w, {}) && w.depth == 0 && u == IncrementTick(w)
    ensures TickWantsSwitch(w) <==>
            w.yieldPending || WakesHigher(w) || SharesPriority(u, w.priority[w.current])
  {
    var limit := w.now + 1;
    DueOutranksMeans(w);
    TickShares(w, WakeUpTo(w, limit), limit, u);
    ListAfterTick(w, WakeUpTo(w, limit), limit, w.priority[w.current]);
  }

  lemma TickShares(w: World, v: World, limit: nat, u: World)
    requires Filed(w, {}) && v == WakeUpTo(w, limit) && u == v.(now := limit)
    ensures var p := w.priority[w.current];
            p < |v.ready| && (|v.ready[p].items| > 1 <==> SharesPriority(u, p))
  {
    var p := w.priority[w.current];
    WakeUpToFiles(w, limit);
    WakeUpToCounts(w, limit);
    SharesPriorityIs(v, p);
    SameShares(u, v, p);
  }

  lemma SameShares(u: World, v: World, p: nat)
    requires u.ready == v.ready && u.priority == v.priority
    ensures SharesPriority(u, p) <==> SharesPriority(v, p)
  {
    assert forall t: Task :: IsReady(u, t) <==> IsReady(v, t);
  }

  lemma ListAfterTick(w: World, v: World, limit: nat, p: nat)
    requires limit == w.now + 1 && v == WakeUpTo(w, limit)
    requires w.current in w.priority && p == w.priority[w.current] && p < |w.ready|
    ensures p < |v.ready|
    ensures TickWantsSwitch(w) <==> w.yieldPending || DueOutranks(w, w.sleeping, limit) || |v.ready[p].items| > 1
  {
    WakeUpToCounts(w, limit);
  }

  /**
   * Preemption by the tick: if the current task is ready and no ready task outranks
   * it, a tick asks for a switch if and only if one was asked for already or then
   * another task is ready whose priority is at least that of the current one.
   */
  lemma TickPreempts(w: World, u: World)
    requires Inv(w) && w.depth == 0 && u == IncrementTick(w) && IsReady(w, w.current)
    requires forall t :: IsReady(w, t) ==> w.priority[t] <= w.priority[w.current]
    ensures TickWantsSwitch(w) <==>
            || w.yieldPending
            || exists t :: t != w.current && IsReady(u, t) && u.priority[t] >= w.priority[w.current]
  {
    TickAsksForSwitch(w, u);
    TickReadies(w, u);
    SameOrHigher(w, u);
  }

  /** What shares or outranks the current priority after a tick is another ready task of at least that priority. */
  lemma SameOrHigher(w: World, u: World)
    requires IsReady(w, w.current) && u.priority == w.priority
    requires forall t :: IsReady(w, t) ==> w.priority[t] <= w.priority[w.current]
    requires forall t: Task :: IsReady(u, t) <==> IsReady(w, t) || Due(w, t, w.now + 1)
    ensures WakesHigher(w) || SharesPriority(u, w.priority[w.current]) <==>
            exists t :: t != w.current && IsReady(u, t) && u.priority[t] >= w.priority[w.current]
  {
    var p := w.priority[w.current];
    assert IsReady(u, w.current);
    if t :| t != w.current && IsReady(u, t) && u.priority[t] >= p {
      assert u.priority[t] > p ==> Due(w, t, w.now + 1);
    }
  }

  lemma TickReadies(w: World, u: World)
    requires Inv(w) && w.depth == 0 && u == IncrementTick(w)
    ensures u.priority == w.priority
    ensures forall t: Task :: IsReady(u, t) <==> IsReady(w, t) || Due(w, t, w.now + 1)
  {
    WakeUpToCounts(w, w.now + 1);
    forall t: Task
      ensures IsReady(u, t) <==> IsReady(w, t) || Due(w, t, w.now + 1)
    {
      TickWakes(w, t);
      if Due(w, t, w.now + 1) {
        var k: nat :| k <= w.now + 1 && Sleeper(t, k) in w.sleeping;
        TasksOfIs(w.sleeping, t);
      }
    }
  }
}
