/**
 * The code of tasks.c follows the runs of ScheduleRuns, so what is proved about
 * those holds of it.
 */
module KernelRuns {
  import opened Ticks
  import opened Schedule
  import S = Schedule
  import opened Tasks
  import R = ScheduleRuns

  /** The tick interrupt, switches and the suspension of the scheduler. */
  method PerformScheduling(k: Kernel, a: R.Action)
    requires k.Valid() && Inv(k.world) && R.Enabled(k.world, a)
    requires a.DoTick? || a.DoSwitch? || a.DoSuspendAll? || a.DoResumeAll?
    modifies k
    ensures k.Valid() && k.world == R.Exec(old(k.world), a)
  {
    match a
    case DoTick => var _ := k.IncrementTick();
    case DoSwitch =>
      IdleIsReady(k.world);
      k.SwitchContext();
    case DoSuspendAll => k.SuspendAll();
    case DoResumeAll => var _ := k.ResumeAll();
  }

  method PerformBlocking(k: Kernel, ticks: Tick, indefinitely: bool, event: bool)
    requires k.Valid() && Inv(k.world) && R.Enabled(k.world, R.DoBlock(ticks, indefinitely, event))
    modifies k
    ensures k.Valid() && k.world == S.Block(old(k.world), ticks, indefinitely, event)
  {
    OnePlace(k.world, k.current);
    if event {
      k.PlaceOnEventList(ticks, indefinitely);
    } else {
      NoEvent(k.world, k.current);
      k.AddCurrentTaskToDelayedList(ticks, indefinitely);
    }
  }

  method PerformEvent(k: Kernel, a: R.Action)
    requires k.Valid() && Inv(k.world) && R.Enabled(k.world, a)
    requires a.DoUnblock? || a.DoUnblockUnordered?
    modifies k
    ensures k.Valid() && k.world == R.Exec(old(k.world), a)
  {
    OnePlace(k.world, a.task);
    match a
    case DoUnblock(t) => var _ := k.RemoveFromEventList(t);
    case DoUnblockUnordered(t) => k.RemoveFromUnorderedEventList(t);
  }

  lemma NoEvent(w: World, t: Task)
    ensures Leave(w, t, false) == Detach(w, t)
  {
  }

  /** Suspending and resuming tasks. */
  method PerformSuspension(k: Kernel, a: R.Action)
    requires k.Valid() && Inv(k.world) && R.Enabled(k.world, a)
    requires a.DoSuspend? || a.DoResume? || a.DoResumeFromISR?
    modifies k
    ensures k.Valid() && k.world == R.Exec(old(k.world), a)
  {
    if a.task in k.world.priority {
      OnePlace(k.world, a.task);
    }
    match a
    case DoSuspend(t) => k.Suspend(t);
    case DoResume(t) => k.Resume(t);
    case DoResumeFromISR(t) => var _ := k.ResumeFromISR(t);
  }

  /** Creation, deletion and changes of priority. */
  method PerformLifecycle(k: Kernel, a: R.Action)
    requires k.Valid() && Inv(k.world) && R.Enabled(k.world, a)
    requires a.DoDelete? || a.DoCleanUp? || a.DoCreate? || a.DoReprioritise?
    modifies k
    ensures k.Valid() && k.world == R.Exec(old(k.world), a)
  {
    match a
    case DoDelete(t) =>
      OnePlace(k.world, t);
      k.Delete(t);
    case DoCleanUp =>
      if k.terminating != [] {
        CleanUpKeepsKnown(k.world);
        k.CleanUpOne();
      }
    case DoCreate(t, p) => k.AddNewTask(t, p);
    case DoReprioritise(t, p) =>
      OnePlace(k.world, t);
      k.Reprioritise(t, p);
  }

  method Perform(k: Kernel, a: R.Action)
    requires k.Valid() && Inv(k.world) && R.Enabled(k.world, a)
    modifies k
    ensures k.Valid() && k.world == R.Exec(old(k.world), a)
  {
    match a
    case DoTick => PerformScheduling(k, a);
    case DoSwitch => PerformScheduling(k, a);
    case DoSuspendAll => PerformScheduling(k, a);
    case DoResumeAll => PerformScheduling(k, a);
    case DoBlock(ticks, indefinitely, event) => PerformBlocking(k, ticks, indefinitely, event);
    case DoUnblock(_) => PerformEvent(k, a);
    case DoUnblockUnordered(_) => PerformEvent(k, a);
    case DoSuspend(_) => PerformSuspension(k, a);
    case DoResume(_) => PerformSuspension(k, a);
    case DoResumeFromISR(_) => PerformSuspension(k, a);
    case _ => PerformLifecycle(k, a);
  }

  /** Every action finds what it needs. */
  ghost predicate Possible(w: World, actions: seq<R.Action>) {
    actions == [] || (
      var rest := actions[..|actions| - 1];
      Possible(w, rest) && R.Enabled(R.Run(w, rest), actions[|actions| - 1]))
  }

  /** Any sequence of calls and interrupts. */
  method RunOn(k: Kernel, actions: seq<R.Action>)
    requires k.Valid() && Inv(k.world) && Possible(k.world, actions)
    modifies k
    ensures k.Valid() && Inv(k.world) && k.world == R.Run(old(k.world), actions)
    decreases |actions|
  {
    if actions != [] {
      var a := actions[|actions| - 1];
      RunOn(k, actions[..|actions| - 1]);
      R.StepKeepsInv(k.world, a);
      Perform(k, a);
    }
  }

  /**
   * The kernel, from the start of the scheduler, through any sequence of calls and
   * interrupts: its fields represent the state of the same run in unbounded time.
   */
  method RunFromStart(priorities: nat, idle: Task, actions: seq<R.Action>) returns (k: Kernel)
    requires priorities > 0 && Possible(Booted(priorities, idle), actions)
    ensures k.Valid() && Inv(k.world) && k.world == R.Run(Booted(priorities, idle), actions)
  {
    BootedInv(priorities, idle);
    k := new Kernel(priorities, idle);
    RunOn(k, actions);
  }
}
