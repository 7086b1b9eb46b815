/**
 * tasks.c: the kernel's file-scope state changed in place, with its wrapping tick
 * count, its two delayed lists, the cached next unblock time and the cached top
 * priority; every operation is proved to be the operation of Schedule on the state
 * seen in unbounded time.
 */
module Tasks {
  import opened Ticks
  import opened Rings
  import opened Schedule
  import S = Schedule
  import opened DelayedLists
  import D = Deadlines

  class Kernel {
    var tickCount: Tick                       // xTickCount
    var overflows: nat                        // xNumOfOverflows
    var delayed: seq<Sleeper>                 // pxDelayedTaskList; the wakes are item values
    var overflowDelayed: seq<Sleeper>         // pxOverflowDelayedTaskList
    var nextUnblock: Tick                     // xNextTaskUnblockTime
    var ready: seq<ReadyList>                 // pxReadyTasksLists
    var top: nat                              // uxTopReadyPriority
    var suspended: seq<Task>                  // xSuspendedTaskList
    var terminating: seq<Task>                // xTasksWaitingTermination
    var pendingReady: seq<Task>               // xPendingReadyList
    var priority: map<Task, nat>              // uxPriority of each TCB
    var waiting: set<Task>                    // the tasks on the event list of some object
    var current: Task                         // pxCurrentTCB
    const idle: Task
    var schedulerSuspended: nat               // uxSchedulerSuspended
    var pendedTicks: nat                      // xPendedTicks
    var yieldPending: bool                    // xYieldPendings[ 0 ]
    var numberOfTasks: nat                    // uxCurrentNumberOfTasks
    var deletedWaiting: nat                   // uxDeletedTasksWaitingCleanUp
    // The state this represents, its time, and the epoch the current delayed list is for.
    ghost var world: World
    ghost var now: nat
    ghost var epoch: nat

    ghost predicate Represents()
      reads this
    {
      world == World(now, Sleepers(delayed, overflowDelayed, epoch), ready, suspended, terminating, priority, waiting,
                     pendingReady, current, idle, schedulerSuspended, pendedTicks, yieldPending)
    }

    /** Item values are ticks, and the next unblock time is not after the first of them. */
    ghost predicate Delays()
      reads this`delayed, this`overflowDelayed, this`nextUnblock
    {
      && Wrapped(delayed) && Wrapped(overflowDelayed)
      && (delayed != [] ==> nextUnblock <= delayed[0].wake)
    }

    /** No list above the top ready priority holds a task. */
    ghost predicate Top()
      reads this`ready, this`top
    {
      top < |ready| && forall p :: top < p < |ready| ==> ready[p].items == []
    }

    ghost predicate Counts()
      reads this`numberOfTasks, this`priority, this`deletedWaiting, this`terminating
    {
      (numberOfTasks, deletedWaiting) == (|priority|, |terminating|)
    }

    ghost predicate Clock(time: nat)
      reads this`tickCount, this`epoch, this`overflows
    {
      (tickCount, epoch, overflows) == (Low(time), Epoch(time), D.OverflowCount(time))
    }

    /** The fields represent the world, whatever that is. */
    ghost predicate Sound()
      reads this
    {
      Represents() && Delays() && Top() && Counts()
    }

    /**
     * What every method keeps.  It relates the new world to the old one by an
     * operation of Schedule, and that operation keeps Inv.
     */
    ghost predicate Valid()
      reads this
    {
      Sound() && Clock(now)
    }

    /** prvInitialiseTaskLists, with the idle task as the first task. */
    constructor (priorities: nat, idle: Task)
      requires priorities > 0
      ensures Valid() && world == S.Booted(priorities, idle)
    {
      this.idle := idle;
      tickCount, overflows, nextUnblock := 0, 0, MAX_DELAY;
      delayed, overflowDelayed := [], [];
      ready := seq(priorities, i => if i == 0 then Ring([idle], 0) else Ring([], 0));
      top, current := 0, idle;
      suspended, terminating, pendingReady := [], [], [];
      priority, waiting := map[idle := 0], {};
      schedulerSuspended, pendedTicks, yieldPending := 0, 0, false;
      numberOfTasks, deletedWaiting := 1, 0;
      world, now, epoch := S.Booted(priorities, idle), 0, 0;
    }

    /** prvAddTaskToReadyList. */
    method AddTaskToReadyList(t: Task)
      requires Sound() && t in priority && priority[t] < |ready|
      modifies this`ready, this`top, this`world
      ensures Sound() && world == S.AddReady(old(world), t)
    {
      var p := priority[t];
      if p > top {
        top := p;
      }
      ready := ready[p := ready[p].InsertEnd(t)];
      world := S.AddReady(world, t);
    }

    method LeaveReadyList(t: Task)
      requires Sound() && IsReady(world, t)
      modifies this`ready, this`world
      ensures Sound() && world == old(world.(ready := ready[priority[t] := ready[priority[t]].Without(t)]))
    {
      var p := priority[t];
      ready := ready[p := ready[p].Without(t)];
      world := world.(ready := ready);
    }

    /** A delayed task leaves whichever of the two delayed lists it is on. */
    method LeaveDelayedLists(t: Task)
      requires Sound() && InOrder(world.sleeping)
      modifies this`delayed, this`overflowDelayed, this`world
      ensures Sound() && world == old(world.(sleeping := Remove(world.sleeping, t)))
    {
      LeavesOneList(delayed, overflowDelayed, epoch, t);
      if t in TasksOf(delayed) {
        delayed := Remove(delayed, t);
      } else {
        overflowDelayed := Remove(overflowDelayed, t);
      }
      world := world.(sleeping := Remove(world.sleeping, t));
    }

    method LeaveSuspendedList(t: Task)
      requires Sound()
      modifies this`suspended, this`world
      ensures Sound() && world == old(world.(suspended := Removed(suspended, t)))
    {
      suspended := Removed(suspended, t);
      world := world.(suspended := suspended);
    }

    /** uxListRemove of the state list item: it leaves the one list that contains it. */
    method RemoveStateItem(t: Task)
      requires Sound() && InOnePlace(world, t)
      modifies this`ready, this`delayed, this`overflowDelayed, this`suspended, this`world
      ensures Sound() && world == S.Detach(old(world), t)
    {
      DetachFromOne(world, t);
      SleepsInOne(delayed, overflowDelayed, epoch, t);
      if t in ready[priority[t]].items {
        LeaveReadyList(t);
      } else if t in TasksOf(delayed) || t in TasksOf(overflowDelayed) {
        LeaveDelayedLists(t);
      } else {
        LeaveSuspendedList(t);
      }
    }

    /** Removal of the event list item, if it is on a list. */
    method RemoveEventItem(t: Task)
      requires Sound()
      modifies this`waiting, this`pendingReady, this`world
      ensures Sound() && world == S.ClearEvent(old(world), t)
    {
      waiting := waiting - {t};
      pendingReady := Removed(pendingReady, t);
      world := S.ClearEvent(world, t);
    }

    /** The event list item joins or leaves the list of some object. */
    method JoinEventList(t: Task)
      requires Sound()
      modifies this`waiting, this`world
      ensures Sound() && world == old(world.(waiting := waiting + {t}))
    {
      waiting := waiting + {t};
      world := world.(waiting := waiting);
    }

    method LeaveEventList(t: Task)
      requires Sound()
      modifies this`waiting, this`world
      ensures Sound() && world == old(world.(waiting := waiting - {t}))
    {
      waiting := waiting - {t};
      world := world.(waiting := waiting);
    }

    method HoldPending(t: Task)
      requires Sound()
      modifies this`pendingReady, this`world
      ensures Sound() && world == old(world.(pending := pendingReady + [t]))
    {
      pendingReady := pendingReady + [t];
      world := world.(pending := pendingReady);
    }

    method TakePending() returns (t: Task)
      requires Sound() && pendingReady != []
      modifies this`pendingReady, this`world
      ensures Sound() && world == old(world.(pending := pendingReady[1..])) && t == old(pendingReady[0])
    {
      t := pendingReady[0];
      pendingReady := pendingReady[1..];
      world := world.(pending := pendingReady);
    }

    /** A yield is requested for a task that outranks the current one. */
    method RequestYield(t: Task) returns (higher: bool)
      requires Sound() && t in priority && current in priority
      modifies this`yieldPending, this`world
      ensures Sound() && world == old(world.(yieldPending := world.yieldPending || Outranks(world, t)))
      ensures higher <==> Outranks(old(world), t)
    {
      higher := priority[t] > priority[current];
      if higher {
        yieldPending := true;
      }
      world := world.(yieldPending := yieldPending);
    }

    method MakeReady(t: Task)
      requires Sound() && InOnePlace(world, t)
      modifies this`ready, this`top, this`delayed, this`overflowDelayed, this`suspended, this`world
      ensures Sound() && world == S.MakeReady(old(world), t)
    {
      RemoveStateItem(t);
      AddTaskToReadyList(t);
    }

    /** prvResetNextTaskUnblockTime. */
    method ResetNextTaskUnblockTime()
      requires Represents() && Wrapped(delayed) && Wrapped(overflowDelayed) && Top() && Counts()
      modifies this`nextUnblock
      ensures Sound()
      ensures delayed != [] ==> nextUnblock == delayed[0].wake
      ensures delayed == [] ==> nextUnblock == MAX_DELAY
    {
      nextUnblock := if delayed == [] then MAX_DELAY else delayed[0].wake;
    }

    // ---- blocking -------------------------------------------------------------------------

    method InsertInOverflow(x: Sleeper, ghost sleeping: seq<Sleeper>)
      requires Sound() && x.wake < TICK_MOD && sleeping == Sleepers(delayed, Insert(overflowDelayed, x), epoch)
      modifies this`overflowDelayed, this`world
      ensures Sound() && world == old(world).(sleeping := sleeping)
    {
      InsertKeepsWrapped(overflowDelayed, x);
      overflowDelayed := Insert(overflowDelayed, x);
      world := world.(sleeping := sleeping);
    }

    method InsertInDelayed(x: Sleeper, ghost sleeping: seq<Sleeper>)
      requires Sound() && x.wake < TICK_MOD && sleeping == Sleepers(Insert(delayed, x), overflowDelayed, epoch)
      modifies this`delayed, this`nextUnblock, this`world
      ensures Sound() && world == old(world).(sleeping := sleeping)
    {
      InsertKeepsWrapped(delayed, x);
      delayed := Insert(delayed, x);
      if x.wake < nextUnblock {
        nextUnblock := x.wake;
      }
      world := world.(sleeping := sleeping);
    }

    /** The task is filed under its wake tick, which may have wrapped. */
    method AddToDelayedList(t: Task, ticks: Tick)
      requires Valid() && ticks > 0
      modifies this`delayed, this`overflowDelayed, this`nextUnblock, this`world
      ensures Sound()
      ensures world == old(world.(sleeping := Insert(world.sleeping, Sleeper(t, now + ticks))))
    {
      FiledByWakeTick(delayed, overflowDelayed, now, t, ticks);
      var timeToWake := Add(tickCount, ticks);
      if timeToWake < tickCount {
        InsertInOverflow(Sleeper(t, timeToWake), Insert(world.sleeping, Sleeper(t, now + ticks)));
      } else {
        InsertInDelayed(Sleeper(t, timeToWake), Insert(world.sleeping, Sleeper(t, now + ticks)));
      }
    }

    method AddToSuspendedList(t: Task)
      requires Sound()
      modifies this`suspended, this`world
      ensures Sound() && world == old(world.(suspended := suspended + [t]))
    {
      suspended := suspended + [t];
      world := world.(suspended := suspended);
    }

    /** prvAddCurrentTaskToDelayedList. */
    method AddCurrentTaskToDelayedList(ticks: Tick, canBlockIndefinitely: bool)
      requires Valid()
      requires InOnePlace(world, current) && IsReady(world, current) && ticks > 0
      modifies this`ready, this`delayed, this`overflowDelayed, this`suspended, this`nextUnblock, this`world
      ensures Sound()
      ensures world == S.FallAsleep(S.Detach(old(world), current), current, ticks, canBlockIndefinitely)
    {
      RemoveStateItem(current);
      if ticks == MAX_DELAY && canBlockIndefinitely {
        AddToSuspendedList(current);
      } else {
        AddToDelayedList(current, ticks);
      }
    }

    /**
     * vTaskPlaceOnEventList and vTaskPlaceOnUnorderedEventList, on some event list;
     * vTaskPlaceOnEventListRestricted says whether the wait may be for ever.
     */
    method PlaceOnEventList(ticks: Tick, canBlockIndefinitely: bool)
      requires Valid() && InOnePlace(world, current) && IsReady(world, current) && ticks > 0
      modifies this`ready, this`delayed, this`overflowDelayed, this`suspended, this`nextUnblock, this`waiting,
               this`world
      ensures Valid() && world == S.Block(old(world), ticks, canBlockIndefinitely, true)
    {
      SamePlace(world, world.(waiting := world.waiting + {current}), current);
      JoinEventList(current);
      AddCurrentTaskToDelayedList(ticks, canBlockIndefinitely);
    }

    // ---- the tick -----------------------------------------------------------------------------

    /** taskSWITCH_DELAYED_LISTS; its assertion is the precondition. */
    method SwitchDelayedLists()
      requires Sound() && delayed == [] && overflows < D.COUNT_MOD
      modifies this`overflows, this`delayed, this`overflowDelayed, this`nextUnblock, this`epoch
      ensures Sound() && epoch == old(epoch) + 1
      ensures overflows == if old(overflows) + 1 == D.COUNT_MOD then 0 else old(overflows) + 1
    {
      SwitchedLists(overflowDelayed, epoch);
      delayed, overflowDelayed := overflowDelayed, delayed;
      overflows := if overflows + 1 == D.COUNT_MOD then 0 else overflows + 1;
      epoch := epoch + 1;
      ResetNextTaskUnblockTime();
    }

    /** The tick count moves on; when it wraps the delayed lists change roles. */
    method AdvanceTick(ghost limit: nat)
      requires Valid() && SleepersInOrder(world) && limit == now + 1
      modifies this`tickCount, this`overflows, this`delayed, this`overflowDelayed, this`nextUnblock, this`epoch
      ensures Sound() && Clock(limit)
    {
      NextTick(now);
      ListsAroundTheTick(delayed, overflowDelayed, now);
      tickCount := Add(tickCount, 1);
      if tickCount == 0 {
        SwitchDelayedLists();
      }
    }

    method TakeFirst() returns (t: Task)
      requires Sound() && InOrder(world.sleeping) && delayed != []
      modifies this`delayed, this`world
      ensures Sound() && world == old(world.(sleeping := world.sleeping[1..]))
      ensures t == old(delayed[0].task) && |delayed| < old(|delayed|)
    {
      t := delayed[0].task;
      HeadOfCurrent(delayed, overflowDelayed, epoch);
      ListsInOrder(delayed, overflowDelayed, epoch);
      delayed := delayed[1..];
      world := world.(sleeping := world.sleeping[1..]);
    }

    /** The head of the delayed list is woken; tells whether it outranks the current task. */
    method WakeFirst() returns (higher: bool)
      requires Sound() && Filed(world, {}) && delayed != []
      modifies this`ready, this`top, this`delayed, this`waiting, this`pendingReady, this`world
      ensures Sound() && world == S.WakeHead(old(world))
      ensures higher == Outranks(old(world), old(delayed[0].task))
      ensures |delayed| < old(|delayed|)
    {
      HeadOfCurrent(delayed, overflowDelayed, epoch);
      HeadFrees(world);
      var t := TakeFirst();
      RemoveEventItem(t);
      AddTaskToReadyList(t);
      higher := priority[t] > priority[current];
    }

    method WakeOneExpired(ghost before: World, ghost limit: nat, ghost wants: bool) returns (higher: bool)
      requires Sound() && Filed(world, {}) && Waking(before, world, limit, wants)
      requires tickCount == Low(limit) && epoch == Epoch(limit) && delayed != [] && delayed[0].wake <= tickCount
      modifies this`ready, this`top, this`delayed, this`waiting, this`pendingReady, this`world
      ensures Sound() && Filed(world, {}) && Waking(before, world, limit, wants || higher)
      ensures |delayed| < old(|delayed|)
    {
      FirstIsDueIff(delayed, overflowDelayed, limit);
      HeadOfCurrent(delayed, overflowDelayed, epoch);
      WakeHeadFiles(world);
      WakeOneMore(before, world, limit, wants);
      higher := WakeFirst();
    }

    /** The loop of xTaskIncrementTick wakes the tasks whose time has come, up to the first whose has not. */
    method WakeAllExpired(ghost limit: nat) returns (wants: bool)
      requires Sound() && Filed(world, {}) && tickCount == Low(limit) && epoch == Epoch(limit)
      modifies this`ready, this`top, this`delayed, this`waiting, this`pendingReady, this`world
      ensures Sound() && Waking(old(world), world, limit, wants)
      ensures delayed == [] || delayed[0].wake > tickCount
    {
      wants := false;
      ghost var before := world;
      while delayed != [] && delayed[0].wake <= tickCount
        invariant Sound() && Filed(world, {})
        invariant Waking(before, world, limit, wants)
        decreases |delayed|
      {
        var higher := WakeOneExpired(before, limit, wants);
        wants := wants || higher;
      }
    }

    /** After the loop the next unblock time is set by the task that stopped it, or to the maximum. */
    method WakeExpired(ghost limit: nat) returns (wants: bool)
      requires Sound() && Filed(world, {}) && tickCount == Low(limit) && epoch == Epoch(limit)
      modifies this`ready, this`top, this`delayed, this`waiting, this`pendingReady, this`nextUnblock, this`world
      ensures Sound() && world == S.WakeUpTo(old(world), limit)
      ensures wants == DueOutranks(old(world), old(world).sleeping, limit)
    {
      ghost var before := world;
      wants := WakeAllExpired(limit);
      NobodyDue(world, delayed, overflowDelayed, limit);
      NoOneOutranks(before, world, limit);
      ResetNextTaskUnblockTime();
    }

    /** The next unblock time may be early, never late: before it nobody is due. */
    method UnblockTasks(ghost limit: nat) returns (wants: bool)
      requires Sound() && Filed(world, {}) && tickCount == Low(limit) && epoch == Epoch(limit)
      modifies this`ready, this`top, this`delayed, this`waiting, this`pendingReady, this`nextUnblock, this`world
      ensures Sound() && world == S.WakeUpTo(old(world), limit)
      ensures wants == DueOutranks(old(world), old(world).sleeping, limit)
    {
      wants := false;
      if tickCount >= nextUnblock {
        wants := WakeExpired(limit);
      } else {
        NobodyDue(world, delayed, overflowDelayed, limit);
      }
    }

    /** The end of a tick: whether it asks for a switch, with equal priorities sharing time. */
    method CompleteTick(ghost w: World, ghost limit: nat, higher: bool) returns (wants: bool)
      requires Sound() && Clock(limit) && w.depth == 0 && w.now + 1 == limit && world == S.WakeUpTo(w, limit)
      requires w.current in w.priority && w.priority[w.current] < |w.ready|
      requires higher == DueOutranks(w, w.sleeping, limit)
      modifies this`now, this`world
      ensures Valid() && world == S.IncrementTick(w)
      ensures wants <==> S.TickWantsSwitch(w)
    {
      TickResult(w, world, limit);
      wants := higher || |ready[priority[current]].items| > 1 || yieldPending;
      now := limit;
      world := world.(now := limit);
    }

    /** What is left of a tick once the counter has been advanced. */
    method FinishTick(ghost limit: nat) returns (switchRequired: bool)
      requires Sound() && Filed(world, {}) && Clock(limit) && world.depth == 0 && world.now + 1 == limit
      modifies this`delayed, this`nextUnblock, this`ready, this`top, this`waiting, this`pendingReady,
               this`now, this`world
      ensures Valid() && world == S.IncrementTick(old(world))
      ensures switchRequired <==> S.TickWantsSwitch(old(world))
    {
      ghost var w := world;
      var higher := UnblockTasks(limit);
      switchRequired := CompleteTick(w, limit, higher);
    }

    /** A tick while the scheduler is running. */
    method ProcessTick() returns (switchRequired: bool)
      requires Valid() && Filed(world, {}) && schedulerSuspended == 0
      modifies this`tickCount, this`overflows, this`delayed, this`overflowDelayed, this`nextUnblock, this`epoch,
               this`ready, this`top, this`waiting, this`pendingReady, this`now, this`world
      ensures Valid() && world == S.IncrementTick(old(world))
      ensures switchRequired <==> S.TickWantsSwitch(old(world))
    {
      ghost var limit := now + 1;
      AdvanceTick(limit);
      switchRequired := FinishTick(limit);
    }

    /** A tick while the scheduler is suspended. */
    method PendTick()
      requires Valid() && schedulerSuspended > 0
      modifies this`pendedTicks, this`world
      ensures Valid() && world == S.IncrementTick(old(world))
    {
      pendedTicks := pendedTicks + 1;
      world := world.(pended := pendedTicks);
    }

    /** xTaskIncrementTick. */
    method IncrementTick() returns (switchRequired: bool)
      requires Valid() && Filed(world, {})
      modifies this
      ensures Valid() && world == S.IncrementTick(old(world))
      ensures switchRequired <==> old(schedulerSuspended) == 0 && S.TickWantsSwitch(old(world))
      ensures numberOfTasks == old(numberOfTasks)
    {
      if schedulerSuspended == 0 {
        switchRequired := ProcessTick();
      } else {
        PendTick();
        switchRequired := false;
      }
    }

    // ---- suspending the scheduler ---------------------------------------------------------------

    /** vTaskSuspendAll. */
    method SuspendAll()
      requires Valid()
      modifies this`schedulerSuspended, this`world
      ensures Valid() && world == S.SuspendAll(old(world))
    {
      schedulerSuspended := schedulerSuspended + 1;
      world := S.SuspendAll(world);
    }

    method MoveOnePending()
      requires Sound() && pendingReady != [] && InOnePlace(world, pendingReady[0]) && current in priority
      modifies this`ready, this`top, this`delayed, this`overflowDelayed, this`suspended, this`pendingReady,
               this`yieldPending, this`world
      ensures Sound() && world == S.MoveOne(old(world))
    {
      SamePlace(world, world.(pending := pendingReady[1..]), pendingReady[0]);
      var t := TakePending();
      MakeReady(t);
      var _ := RequestYield(t);
    }

    method MoveOneMore(ghost before: World)
      requires Sound() && Filed(world, {}) && pendingReady != [] && S.MovePending(world) == S.MovePending(before)
      modifies this`ready, this`top, this`delayed, this`overflowDelayed, this`suspended, this`pendingReady,
               this`yieldPending, this`world
      ensures Sound() && Filed(world, {}) && S.MovePending(world) == S.MovePending(before)
      ensures |pendingReady| < old(|pendingReady|)
    {
      OnePlace(world, pendingReady[0]);
      MoveOneFiles(world);
      MoveOneTakes(world);
      MoveOnePending();
    }

    /** The first loop of xTaskResumeAll. */
    method MoveAllPending() returns (moved: bool)
      requires Sound() && Filed(world, {})
      modifies this`ready, this`top, this`delayed, this`overflowDelayed, this`suspended, this`pendingReady,
               this`yieldPending, this`world
      ensures Sound() && world == S.MovePending(old(world))
    {
      ghost var before := world;
      moved := false;
      while pendingReady != []
        invariant Sound() && Filed(world, {})
        invariant S.MovePending(world) == S.MovePending(before)
        decreases |pendingReady|
      {
        MoveOneMore(before);
        moved := true;
      }
    }

    /** Afterwards the next unblock time is set anew if a task was moved. */
    method MovePendingReady()
      requires Sound() && Filed(world, {})
      modifies this`ready, this`top, this`delayed, this`overflowDelayed, this`suspended, this`pendingReady,
               this`yieldPending, this`nextUnblock, this`world
      ensures Sound() && world == S.MovePending(old(world))
    {
      var moved := MoveAllPending();
      if moved {
        ResetNextTaskUnblockTime();
      }
    }

    method NoteYield(switchRequired: bool)
      requires Valid()
      modifies this`yieldPending, this`world
      ensures Valid() && world == old(world.(yieldPending := yieldPending || switchRequired))
    {
      yieldPending := yieldPending || switchRequired;
      world := world.(yieldPending := yieldPending);
    }

    method ReplayOneTick()
      requires Valid() && Filed(world, {}) && schedulerSuspended == 0
      modifies this
      ensures Valid() && world == S.ReplayOne(old(world))
      ensures numberOfTasks == old(numberOfTasks)
    {
      KeepsYieldRequest(world);
      var switchRequired := IncrementTick();
      NoteYield(switchRequired);
    }

    method ReplayOneMore(ghost before: World, ghost done: nat)
      requires Valid() && Filed(before, {}) && before.depth == 0 && world == S.Replay(before, done)
      modifies this
      ensures Valid() && world == S.Replay(before, done + 1)
    {
      ReplayFiles(before, done, world);
      ReplayCounts(before, done);
      ReplayOneTick();
    }

    method ClearPendedTicks()
      requires Valid()
      modifies this`pendedTicks, this`world
      ensures Valid() && world == old(world).(pended := 0)
    {
      pendedTicks := 0;
      world := world.(pended := 0);
    }

    /** The second loop of xTaskResumeAll: the pended ticks, one by one. */
    method ReplayTicks(pended: nat)
      requires Valid() && Filed(world, {}) && schedulerSuspended == 0
      modifies this
      ensures Valid() && world == S.Replay(old(world), pended)
    {
      ghost var before := world;
      var pendedCounts := pended;
      ghost var done := 0;
      while pendedCounts > 0
        invariant done + pendedCounts == pended
        invariant Valid() && world == S.Replay(before, done)
        decreases pendedCounts
      {
        ReplayOneMore(before, done);
        pendedCounts := pendedCounts - 1;
        done := done + 1;
      }
      assert done == pended;
    }

    method ReplayPendedTicks()
      requires Valid() && Filed(world, {}) && schedulerSuspended == 0
      modifies this
      ensures Valid() && world == S.Replay(old(world), old(pendedTicks)).(pended := 0)
    {
      ReplayTicks(pendedTicks);
      ClearPendedTicks();
    }

    method Settle()
      requires Valid() && Filed(world, {}) && schedulerSuspended == 0
      modifies this
      ensures Valid() && world == S.Settle(old(world))
    {
      MovePendingFiles(world);
      MovePendingReady();
      ReplayPendedTicks();
    }

    method LeaveSuspension()
      requires Valid() && schedulerSuspended > 0
      modifies this`schedulerSuspended, this`world
      ensures Valid() && world == old(world.(depth := schedulerSuspended - 1))
    {
      schedulerSuspended := schedulerSuspended - 1;
      world := world.(depth := schedulerSuspended);
    }

    method Unnest()
      requires Valid() && Filed(world, {}) && schedulerSuspended > 0
      modifies this`schedulerSuspended, this`world
      ensures Valid() && Filed(world, {}) && world == old(world.(depth := schedulerSuspended - 1))
    {
      ghost var before := world;
      LeaveSuspension();
      DepthKeeps(before, world);
    }

    /** What xTaskResumeAll does if it was the outermost; its check that there are tasks always passes. */
    method CatchUp() returns (alreadyYielded: bool)
      requires Valid() && Filed(world, {}) && schedulerSuspended == 0
      modifies this
      ensures Valid() && world == S.Settle(old(world))
      ensures alreadyYielded <==> yieldPending
    {
      TasksExist(world);
      assert numberOfTasks > 0;
      Settle();
      alreadyYielded := yieldPending;
    }

    /** xTaskResumeAll tells whether a yield has been asked for. */
    method ResumeAll() returns (alreadyYielded: bool)
      requires Valid() && Filed(world, {}) && schedulerSuspended > 0
      modifies this
      ensures Valid() && world == S.ResumeAll(old(world))
      ensures alreadyYielded <==> old(schedulerSuspended) == 1 && yieldPending
    {
      Unnest();
      alreadyYielded := false;
      if schedulerSuspended == 0 {
        alreadyYielded := CatchUp();
      }
    }

    /** vTaskDelay; a delay of zero only asks for a switch. */
    method Delay(ticks: Tick) returns (alreadyYielded: bool)
      requires Valid() && Inv(world) && IsReady(world, current) && current != idle
      modifies this
      ensures Valid()
      ensures ticks == 0 ==> world == old(world) && !alreadyYielded
      ensures ticks > 0 ==> world == S.ResumeAll(S.Block(S.SuspendAll(old(world)), ticks, false, false))
    {
      alreadyYielded := false;
      if ticks > 0 {
        DelayKeepsPlaces(world, ticks);
        SuspendAll();
        AddCurrentTaskToDelayedList(ticks, false);
        alreadyYielded := ResumeAll();
      }
    }

    // ---- selection --------------------------------------------------------------------------------

    /** The scan of taskSELECT_HIGHEST_PRIORITY_TASK; its assertion is that it ends before priority zero is passed. */
    method HighestReady() returns (topPriority: nat)
      requires Top() && ready[HighestFrom(ready, |ready| - 1)].items != []
      ensures topPriority <= top && topPriority == HighestFrom(ready, |ready| - 1) && ready[topPriority].items != []
    {
      topPriority := top;
      HighestBelow(ready, |ready| - 1, top);
      ghost var p := HighestFrom(ready, |ready| - 1);
      while ready[topPriority].items == []
        invariant p <= topPriority <= top
        invariant HighestFrom(ready, topPriority) == HighestFrom(ready, |ready| - 1)
        decreases topPriority
      {
        topPriority := topPriority - 1;
      }
    }

    /** listGET_OWNER_OF_NEXT_ENTRY on the highest ready list, whose priority is then the top. */
    method StepOn(topPriority: nat, next: ReadyList)
      requires Sound() && topPriority < |ready|
      requires forall p :: topPriority < p < |ready| ==> ready[p].items == []
      modifies this`ready, this`top, this`world
      ensures Sound() && world == old(world.(ready := ready[topPriority := next]))
    {
      ready := ready[topPriority := next];
      top := topPriority;
      world := world.(ready := ready);
    }

    method RunTask(t: Task)
      requires Sound()
      modifies this`current, this`yieldPending, this`world
      ensures Sound() && world == old(world).(yieldPending := false, current := t)
    {
      yieldPending := false;
      current := t;
      world := world.(yieldPending := false, current := t);
    }

    /** taskSELECT_HIGHEST_PRIORITY_TASK: the next entry of the highest ready list. */
    method SelectHighestPriorityTask()
      requires Sound() && ready[HighestFrom(ready, |ready| - 1)].items != [] && schedulerSuspended == 0
      modifies this`ready, this`top, this`current, this`yieldPending, this`world
      ensures Sound() && world == S.Switch(old(world))
    {
      var topPriority := HighestReady();
      TopIsHighest(ready, topPriority);
      var next: ReadyList := ready[topPriority].Advance();
      StepOn(topPriority, next);
      RunTask(next.items[next.index - 1]);
    }

    /** vTaskSwitchContext. */
    method SwitchContext()
      requires Valid()
      requires schedulerSuspended == 0 ==> ready[HighestFrom(ready, |ready| - 1)].items != []
      modifies this`ready, this`top, this`current, this`yieldPending, this`world
      ensures Valid() && world == S.Switch(old(world))
    {
      if schedulerSuspended != 0 {
        yieldPending := true;
        world := S.Switch(world);
      } else {
        SelectHighestPriorityTask();
      }
    }

    // ---- events -----------------------------------------------------------------------------------

    /** While the scheduler is suspended the ready lists are left alone. */
    method MakeReadyOrHold(t: Task)
      requires Sound() && InOnePlace(world, t)
      modifies this`ready, this`top, this`delayed, this`overflowDelayed, this`suspended, this`pendingReady, this`world
      ensures Sound()
      ensures world == if old(world).depth == 0 then S.MakeReady(old(world), t)
                       else old(world.(pending := world.pending + [t]))
    {
      if schedulerSuspended == 0 {
        MakeReady(t);
      } else {
        HoldPending(t);
      }
    }

    /** xTaskRemoveFromEventList, for the task at the head of an event list. */
    method RemoveFromEventList(t: Task) returns (higher: bool)
      requires Valid() && t in waiting && InOnePlace(world, t) && current in priority
      modifies this`ready, this`top, this`delayed, this`overflowDelayed, this`suspended,
               this`waiting, this`pendingReady, this`yieldPending, this`world
      ensures Valid() && world == S.Unblock(old(world), t)
      ensures higher <==> Outranks(world, t)
    {
      SamePlace(world, world.(waiting := world.waiting - {t}), t);
      LeaveEventList(t);
      MakeReadyOrHold(t);
      higher := RequestYield(t);
    }

    /** vTaskRemoveFromUnorderedEventList. */
    method RemoveFromUnorderedEventList(t: Task)
      requires Valid() && t in waiting && InOnePlace(world, t) && current in priority && schedulerSuspended > 0
      modifies this`ready, this`top, this`delayed, this`overflowDelayed, this`suspended,
               this`waiting, this`yieldPending, this`world
      ensures Valid() && world == S.UnblockUnordered(old(world), t)
    {
      SamePlace(world, world.(waiting := world.waiting - {t}), t);
      LeaveEventList(t);
      MakeReady(t);
      var _ := RequestYield(t);
    }

    // ---- suspending, resuming, creating and deleting tasks ----------------------------------------

    /** vTaskSuspend. */
    method Suspend(t: Task)
      requires Valid() && InOnePlace(world, t)
      modifies this`ready, this`delayed, this`overflowDelayed, this`suspended, this`waiting, this`pendingReady,
               this`nextUnblock, this`world
      ensures Valid() && world == S.Suspend(old(world), t)
    {
      RemoveStateItem(t);
      RemoveEventItem(t);
      AddToSuspendedList(t);
      ResetNextTaskUnblockTime();
    }

    /** prvTaskIsTaskSuspended. */
    predicate TaskIsTaskSuspended(t: Task)
      reads this
    {
      t in suspended && t !in pendingReady && t !in waiting
    }

    /** vTaskResume. */
    method Resume(t: Task)
      requires Valid() && (t in suspended ==> InOnePlace(world, t))
      modifies this`ready, this`top, this`delayed, this`overflowDelayed, this`suspended, this`world
      ensures Valid() && world == S.Resume(old(world), t)
    {
      if t != current && TaskIsTaskSuspended(t) {
        MakeReady(t);
      }
    }

    /** xTaskResumeFromISR: while the scheduler is suspended the task is held on the pending-ready list. */
    method ResumeFromISR(t: Task) returns (yieldRequired: bool)
      requires Valid() && (t in suspended ==> InOnePlace(world, t)) && current in priority
      modifies this`ready, this`top, this`delayed, this`overflowDelayed, this`suspended, this`pendingReady,
               this`yieldPending, this`world
      ensures Valid() && world == S.ResumeFromISR(old(world), t)
      ensures yieldRequired <==> old(IsSuspended(world, t) && world.depth == 0 && Outranks(world, t))
    {
      yieldRequired := false;
      if TaskIsTaskSuspended(t) {
        if schedulerSuspended == 0 {
          SamePlace(world, world.(yieldPending := world.yieldPending || Outranks(world, t)), t);
          yieldRequired := RequestYield(t);
          MakeReady(t);
        } else {
          HoldPending(t);
        }
      }
    }

    method AwaitTermination(t: Task)
      requires Sound()
      modifies this`terminating, this`deletedWaiting, this`world
      ensures Sound() && world == old(world.(dying := terminating + [t]))
    {
      terminating := terminating + [t];
      deletedWaiting := deletedWaiting + 1;
      world := world.(dying := terminating);
    }

    method Forget(t: Task)
      requires Sound() && t in priority
      modifies this`numberOfTasks, this`priority, this`world
      ensures Sound() && world == old(world.(priority := priority - {t}))
    {
      OneTaskLess(priority, t);
      numberOfTasks := numberOfTasks - 1;
      priority := priority - {t};
      world := world.(priority := priority);
    }

    method ForgetNow(t: Task)
      requires Sound() && t in priority
      modifies this`numberOfTasks, this`priority, this`nextUnblock, this`world
      ensures Sound() && world == old(world.(priority := priority - {t}))
    {
      Forget(t);
      ResetNextTaskUnblockTime();
    }

    /** vTaskDelete: the running task is left for the idle task to free, any other is freed at once. */
    method Delete(t: Task)
      requires Valid() && InOnePlace(world, t)
      modifies this`ready, this`delayed, this`overflowDelayed, this`suspended, this`waiting, this`pendingReady,
               this`terminating, this`deletedWaiting, this`numberOfTasks, this`priority, this`nextUnblock, this`world
      ensures Valid() && world == S.Delete(old(world), t)
    {
      RemoveStateItem(t);
      RemoveEventItem(t);
      if t == current {
        AwaitTermination(t);
      } else {
        ForgetNow(t);
      }
    }

    method TakeTerminated() returns (t: Task)
      requires Sound() && terminating != []
      modifies this`terminating, this`deletedWaiting, this`world
      ensures Sound() && world == old(world.(dying := terminating[1..])) && t == old(terminating[0])
    {
      t := terminating[0];
      terminating := terminating[1..];
      deletedWaiting := deletedWaiting - 1;
      world := world.(dying := terminating);
    }

    method CleanUpOne()
      requires Valid() && terminating != [] && terminating[0] in priority
      modifies this`terminating, this`deletedWaiting, this`numberOfTasks, this`priority, this`world
      ensures Valid() && world == S.CleanUp(old(world))
    {
      var t := TakeTerminated();
      Forget(t);
    }

    /** prvCheckTasksWaitingTermination, run by the idle task: every task left to it is freed. */
    method CheckTasksWaitingTermination()
      requires Valid() && DyingKnown(world)
      modifies this`terminating, this`deletedWaiting, this`numberOfTasks, this`priority, this`world
      ensures Valid() && terminating == [] && world == S.CleanUpAll(old(world))
    {
      ghost var before := world;
      while deletedWaiting > 0
        invariant Valid() && DyingKnown(world) && S.CleanUpAll(world) == S.CleanUpAll(before)
        decreases |world.dying|
      {
        CleanUpKeepsKnown(world);
        CleanUpOne();
      }
    }

    /** prvAddNewTaskToReadyList, once the scheduler is running. */
    method AddNewTask(t: Task, p: nat)
      requires Valid() && t !in priority && p < |ready|
      modifies this`numberOfTasks, this`priority, this`ready, this`top, this`world
      ensures Valid() && world == S.Create(old(world), t, p)
    {
      AddTcb(t, p);
      AddTaskToReadyList(t);
    }

    method AddTcb(t: Task, p: nat)
      requires Sound() && t !in priority
      modifies this`numberOfTasks, this`priority, this`world
      ensures Sound() && world == old(world.(priority := priority[t := p]))
    {
      OneTaskMore(priority, t, p);
      numberOfTasks := numberOfTasks + 1;
      priority := priority[t := p];
      world := world.(priority := priority);
    }

    method SetPriority(t: Task, p: nat)
      requires Sound() && t in priority
      modifies this`priority, this`world
      ensures Sound() && world == old(world.(priority := priority[t := p]))
    {
      OneTaskMore(priority, t, p);
      priority := priority[t := p];
      world := world.(priority := priority);
    }

    /** What vTaskPrioritySet and the inheritance functions do to the ready lists when uxPriority changes. */
    method Reprioritise(t: Task, p: nat)
      requires Valid() && t in priority && priority[t] < |ready| && p < |ready|
      requires IsReady(world, t) ==> InOnePlace(world, t)
      modifies this`ready, this`top, this`priority, this`world
      ensures Valid() && world == S.Reprioritise(old(world), t, p)
    {
      if t in ready[priority[t]].items {
        DetachFromOne(world, t);
        LeaveReadyList(t);
        SetPriority(t, p);
        AddTaskToReadyList(t);
      } else {
        SetPriority(t, p);
      }
    }
  }

  /** Waking has got from `before` to `w`; `wants` tells whether a task woken so far outranks the current one. */
  ghost predicate Waking(before: World, w: World, limit: nat, wants: bool) {
    && S.WakeUpTo(w, limit) == S.WakeUpTo(before, limit)
    && (wants || DueOutranks(before, w.sleeping, limit)) == DueOutranks(before, before.sleeping, limit)
    && w.priority == before.priority && w.current == before.current
  }

  lemma WakeOneMore(before: World, w: World, limit: nat, wants: bool)
    requires Waking(before, w, limit, wants) && w.sleeping != [] && w.sleeping[0].wake <= limit
    ensures Waking(before, S.WakeHead(w), limit, wants || Outranks(before, w.sleeping[0].task))
  {
  }

  lemma {:induction false} WakingKeepsFlag(w: World, limit: nat)
    ensures S.WakeUpTo(w, limit).yieldPending == w.yieldPending
    decreases |w.sleeping|
  {
    if w.sleeping != [] && w.sleeping[0].wake <= limit {
      WakingKeepsFlag(S.WakeHead(w), limit);
    }
  }

  lemma TickResult(w: World, u: World, limit: nat)
    requires w.depth == 0 && w.now + 1 == limit && u == S.WakeUpTo(w, limit)
    requires w.current in w.priority && w.priority[w.current] < |w.ready|
    ensures S.IncrementTick(w) == u.(now := limit)
    ensures u.current in u.priority && u.priority[u.current] < |u.ready|
    ensures S.TickWantsSwitch(w) <==>
              u.yieldPending || DueOutranks(w, w.sleeping, limit) || |u.ready[u.priority[u.current]].items| > 1
  {
    WakeUpToCounts(w, limit);
    WakingKeepsFlag(w, limit);
  }

  lemma NoOneOutranks(before: World, w: World, limit: nat)
    requires w.sleeping != [] ==> w.sleeping[0].wake > limit
    ensures !DueOutranks(before, w.sleeping, limit)
  {
  }

  /** If the current list shows nobody due, a tick wakes nobody. */
  lemma NobodyDue(w: World, current: seq<Sleeper>, overflow: seq<Sleeper>, limit: nat)
    requires w.sleeping == Sleepers(current, overflow, Epoch(limit))
    ensures current == [] || current[0].wake > Low(limit) ==>
              && S.WakeUpTo(w, limit) == w && !DueOutranks(w, w.sleeping, limit)
              && (w.sleeping != [] ==> w.sleeping[0].wake > limit)
  {
    FirstIsDueIff(current, overflow, limit);
  }

  lemma {:induction false} RemoveKeepsWrapped(s: seq<Sleeper>, t: Task)
    requires Wrapped(s) && InOrder(s)
    ensures var r := Remove(s, t);
            Wrapped(r) && (r != [] ==> s != [] && r[0].wake >= s[0].wake)
  {
    if s != [] && s[0].task != t {
      RemoveKeepsWrapped(s[1..], t);
    }
  }

  lemma LeavesOneList(current: seq<Sleeper>, overflow: seq<Sleeper>, epoch: nat, t: Task)
    requires Wrapped(current) && Wrapped(overflow) && InOrder(Sleepers(current, overflow, epoch))
    ensures var c := if t in TasksOf(current) then Remove(current, t) else current;
            var o := if t in TasksOf(current) then overflow else Remove(overflow, t);
            && Wrapped(c) && Wrapped(o)
            && (c != [] ==> current != [] && c[0].wake >= current[0].wake)
            && Sleepers(c, o, epoch) == Remove(Sleepers(current, overflow, epoch), t)
  {
    RemovedFromOne(current, overflow, epoch, t);
    ListsInOrder(current, overflow, epoch);
    RemoveKeepsWrapped(current, t);
    RemoveKeepsWrapped(overflow, t);
  }

  lemma ListsInOrder(current: seq<Sleeper>, overflow: seq<Sleeper>, epoch: nat)
    requires InOrder(Sleepers(current, overflow, epoch))
    ensures InOrder(current) && InOrder(overflow)
  {
    var s := Sleepers(current, overflow, epoch);
    forall i | 0 <= i < |current|
      ensures s[i] == Sleeper(current[i].task, current[i].wake + epoch * TICK_MOD)
    {
      ShiftedAt(current, epoch * TICK_MOD, i);
    }
    forall i | 0 <= i < |overflow|
      ensures s[|current| + i] == Sleeper(overflow[i].task, overflow[i].wake + (epoch + 1) * TICK_MOD)
    {
      ShiftedAt(overflow, (epoch + 1) * TICK_MOD, i);
    }
  }

  /** The task is in no two of the lists that removal looks at. */
  ghost predicate InOnePlace(w: World, t: Task) {
    && t in w.priority && w.priority[t] < |w.ready| && InOrder(w.sleeping) && t !in w.dying
    && (IsReady(w, t) ==> !IsSleeping(w, t) && t !in w.suspended)
    && (IsSleeping(w, t) ==> t !in w.suspended)
  }

  lemma OnePlace(w: World, t: Task)
    requires Filed(w, {}) && t in w.priority
    ensures t !in w.dying ==> InOnePlace(w, t)
    ensures t in w.waiting || t in w.pending ==> t in w.priority && !IsReady(w, t) && t !in w.dying
    ensures w.current in w.priority
    ensures IsReady(w, t) ==> t !in w.dying
  {
  }

  lemma SamePlace(w: World, u: World, t: Task)
    requires InOnePlace(w, t)
    requires u.priority == w.priority && u.ready == w.ready && u.sleeping == w.sleeping
    requires u.suspended == w.suspended && u.dying == w.dying
    ensures InOnePlace(u, t) && (IsReady(u, t) <==> IsReady(w, t))
  {
  }

  /** Removal from every list is removal from the one that holds the task. */
  lemma DetachFromOne(w: World, t: Task)
    requires InOnePlace(w, t)
    ensures Detach(w, t) ==
            if IsReady(w, t) then w.(ready := w.ready[w.priority[t] := w.ready[w.priority[t]].Without(t)])
            else if IsSleeping(w, t) then w.(sleeping := Remove(w.sleeping, t))
            else w.(suspended := Removed(w.suspended, t))
  {
    if !IsReady(w, t) {
      NothingRemoved(w.ready[w.priority[t]].items, t);
      assert w.ready[w.priority[t]].Without(t) == w.ready[w.priority[t]];
      assert w.ready[w.priority[t] := w.ready[w.priority[t]]] == w.ready;
    }
    if !IsSleeping(w, t) {
      RemoveNone(w.sleeping, t);
    }
    if t !in w.suspended {
      NothingRemoved(w.suspended, t);
    }
    NothingRemoved(w.dying, t);
  }

  lemma SleepsInOne(current: seq<Sleeper>, overflow: seq<Sleeper>, epoch: nat, t: Task)
    ensures t in TasksOf(Sleepers(current, overflow, epoch)) <==> t in TasksOf(current) || t in TasksOf(overflow)
  {
    var a, b := Shifted(current, epoch * TICK_MOD), Shifted(overflow, (epoch + 1) * TICK_MOD);
    ShiftedTasks(current, epoch * TICK_MOD, t);
    ShiftedTasks(overflow, (epoch + 1) * TICK_MOD, t);
    assert TasksOf(a + b) == TasksOf(a) + TasksOf(b);
  }

  lemma {:induction false} InsertKeepsWrapped(s: seq<Sleeper>, x: Sleeper)
    requires Wrapped(s) && x.wake < TICK_MOD
    ensures var r := Insert(s, x);
            Wrapped(r) && r != [] && (r[0] == x || (s != [] && r[0] == s[0]))
    decreases s
  {
    if s != [] && s[0].wake <= x.wake {
      InsertKeepsWrapped(s[1..], x);
    }
  }

  lemma NextTick(now: nat)
    ensures Add(Low(now), 1) == Low(now + 1)
    ensures Low(now + 1) == 0 ==> Epoch(now + 1) == Epoch(now) + 1
    ensures Low(now + 1) != 0 ==> Epoch(now + 1) == Epoch(now)
    ensures D.OverflowCount(now + 1) ==
            if Low(now + 1) != 0 then D.OverflowCount(now)
            else if D.OverflowCount(now) + 1 == D.COUNT_MOD then 0 else D.OverflowCount(now) + 1
  {
  }

  /** A look at the head of the current list tells whether anybody is due. */
  lemma FirstIsDueIff(current: seq<Sleeper>, overflow: seq<Sleeper>, limit: nat)
    ensures var s := Sleepers(current, overflow, Epoch(limit));
            (s != [] && s[0].wake <= limit) <==> (current != [] && current[0].wake <= Low(limit))
  {
    if current != [] {
      HeadOfCurrent(current, overflow, Epoch(limit));
    } else if Sleepers(current, overflow, Epoch(limit)) != [] {
      HeadOfOverflow(overflow, Epoch(limit));
    }
  }

  /** The tasks that await termination exist, each once; Inv has this. */
  ghost predicate DyingKnown(w: World) {
    Distinct(w.dying) && forall t :: t in w.dying ==> t in w.priority
  }

  lemma CleanUpKeepsKnown(w: World)
    requires DyingKnown(w) && w.dying != []
    ensures w.dying[0] in w.priority && DyingKnown(S.CleanUp(w)) && S.CleanUpAll(w) == S.CleanUpAll(S.CleanUp(w))
  {
    assert w.dying[0] in w.dying;
  }

  lemma DelayKeepsPlaces(w: World, ticks: Tick)
    requires Inv(w) && IsReady(w, w.current) && w.current != w.idle && ticks > 0
    ensures var u := S.SuspendAll(w);
            && InOnePlace(u, u.current) && IsReady(u, u.current)
            && S.Block(u, ticks, false, false) == S.FallAsleep(S.Detach(u, u.current), u.current, ticks, false)
            && Filed(S.Block(u, ticks, false, false), {})
  {
    var u := S.SuspendAll(w);
    SuspendAllKeepsInv(w);
    OnePlace(u, u.current);
    BlockKeepsInv(u, ticks, false, false);
    assert S.Leave(u, u.current, false) == S.Detach(u, u.current);
  }

  lemma OneTaskLess(m: map<Task, nat>, t: Task)
    requires t in m
    ensures |m - {t}| == |m| - 1
  {
    assert m.Keys == (m - {t}).Keys + {t};
  }

  lemma OneTaskMore(m: map<Task, nat>, t: Task, p: nat)
    ensures |m[t := p]| == if t in m then |m| else |m| + 1
  {
    assert m[t := p].Keys == m.Keys + {t};
  }

  lemma MoveOneTakes(w: World)
    requires w.pending != []
    ensures |S.MoveOne(w).pending| < |w.pending|
  {
  }

  /** A yield that was pending before a tick is still asked for after it. */
  lemma KeepsYieldRequest(w: World)
    ensures w.depth == 0 ==> S.IncrementTick(w).yieldPending == w.yieldPending
    ensures w.yieldPending ==> S.TickWantsSwitch(w)
  {
    WakingKeepsFlag(w, w.now + 1);
  }

  lemma {:induction false} HighestBelow(ready: seq<ReadyList>, p: nat, q: nat)
    requires q <= p < |ready| && forall i :: q < i <= p ==> ready[i].items == []
    ensures HighestFrom(ready, p) == HighestFrom(ready, q)
    decreases p
  {
    if q < p {
      HighestBelow(ready, p - 1, q);
    }
  }

  lemma TasksExist(w: World)
    requires Filed(w, {})
    ensures |w.priority| > 0
  {
    assert w.current in w.priority.Keys;
  }

  /** Above the highest ready priority every list is empty. */
  lemma TopIsHighest(ready: seq<ReadyList>, h: nat)
    requires ready != [] && h == HighestFrom(ready, |ready| - 1)
    ensures forall p :: h < p < |ready| ==> ready[p].items == []
  {
  }
}
