/**
 * What events and endless waits come to over whole runs of the scheduler.
 */
module SchedulerEvents {
  import opened Ticks
  import opened Schedule
  import opened SchedulerCalls
  import opened ScheduleRuns

  /** The step does not take the task out of action: it is not suspended or deleted, and does not itself block. */
  predicate LeavesGoing(w: World, a: Action, t: Task) {
    match a
    case DoSuspend(u) => u != t
    case DoDelete(u) => u != t
    case DoBlock(_, _, _) => w.current != t
    case _ => true
  }

  /** No step of the run takes the task out of action. */
  ghost predicate KeepsGoing(w: World, actions: seq<Action>, t: Task) {
    actions == [] || (
      var rest := actions[..|actions| - 1];
      KeepsGoing(w, rest, t) && LeavesGoing(Run(w, rest), actions[|actions| - 1], t))
  }

  lemma TouchedStaysReleased(w: World, u: World, v: Task, t: Task)
    requires OnlyTouches(w, u, v) && v != t && Released(w, t)
    ensures Released(u, t)
  {
    assert Untouched(w, u, t);
  }

  /** A task that is ready or pending stays so, whatever is done to other tasks. */
  lemma OthersKeepReleased(w: World, a: Action, t: Task)
    requires Inv(w) && Enabled(w, a) && Released(w, t) && LeavesGoing(w, a, t)
    requires a.DoUnblock? || a.DoUnblockUnordered? || a.DoSuspend? || a.DoDelete? || a.DoCreate?
    ensures Released(Exec(w, a), t)
  {
    match a
    case DoUnblock(v) => EventReadies(w, v); TouchedStaysReleased(w, Exec(w, a), v, t);
    case DoUnblockUnordered(v) => UnorderedEventReadies(w, v); TouchedStaysReleased(w, Exec(w, a), v, t);
    case DoSuspend(v) => SuspendHolds(w, v); TouchedStaysReleased(w, Exec(w, a), v, t);
    case DoDelete(v) => DeleteForgets(w, v); TouchedStaysReleased(w, Exec(w, a), v, t);
    case DoCreate(v, p) => CreateReadies(w, v, p); TouchedStaysReleased(w, Exec(w, a), v, t);
  }

  lemma SelfStaysReleased(w: World, a: Action, t: Task)
    requires Inv(w) && Enabled(w, a) && Released(w, t)
    requires a.DoResume? || a.DoResumeFromISR? || a.DoReprioritise?
    ensures Released(Exec(w, a), t)
  {
    match a
    case DoResume(v) =>
      ResumeReadies(w, v);
      assert v != t && Exec(w, a) != w ==> Untouched(w, Exec(w, a), t);
    case DoResumeFromISR(v) =>
      ResumeFromISRReadies(w, v);
      assert v != t && Exec(w, a) != w ==> Untouched(w, Exec(w, a), t);
    case DoReprioritise(v, p) =>
      ReprioritiseMoves(w, v, p);
      assert v != t ==> Untouched(w, Exec(w, a), t);
  }

  lemma ClockKeepsReleased(w: World, a: Action, t: Task)
    requires Inv(w) && Enabled(w, a) && Released(w, t) && LeavesGoing(w, a, t)
    requires a.DoTick? || a.DoSwitch? || a.DoBlock? || a.DoCleanUp? || a.DoSuspendAll?
    ensures Released(Exec(w, a), t)
  {
    match a
    case DoTick => TickWakes(w, t);
    case DoSwitch => SwitchMovesNobody(w, t);
    case DoBlock(ticks, indefinitely, event) =>
      BlockTouches(w, ticks, indefinitely, event, t);
    case DoCleanUp =>
      if w.dying != [] {
        CleanUpForgets(w);
        assert Untouched(w, CleanUp(w), t);
      }
    case DoSuspendAll =>
  }

  lemma {:induction false} ReplayKeepsReady(w: World, ticks: nat, u: World, t: Task)
    requires Filed(w, {}) && w.depth == 0 && IsReady(w, t) && u == Replay(w, ticks)
    ensures Filed(u, {}) && u.depth == 0 && IsReady(u, t)
    decreases ticks
  {
    if ticks > 0 {
      var v := Replay(w, ticks - 1);
      ReplayKeepsReady(w, ticks - 1, v, t);
      ReplayedKeepsReady(v, t, u);
    }
  }

  lemma TickKeepsReady(w: World, t: Task, u: World)
    requires Filed(w, {}) && w.depth == 0 && IsReady(w, t) && u == ReplayOne(w)
    ensures IsReady(u, t)
  {
    ReadyStays(w, w.now + 1, t);
  }

  lemma ReplayedKeepsReady(w: World, t: Task, u: World)
    requires Filed(w, {}) && w.depth == 0 && IsReady(w, t) && u == ReplayOne(w)
    ensures Filed(u, {}) && u.depth == 0 && IsReady(u, t)
  {
    TickKeepsReady(w, t, u);
    ReplayOneFiles(w);
    TickCounts(w);
  }

  /** The outermost resume of the scheduler makes every pending task ready. */
  lemma ResumeReleases(w: World, t: Task)
    requires Inv(w) && w.depth > 0 && Released(w, t)
    ensures Released(ResumeAll(w), t)
  {
    var u := w.(depth := w.depth - 1);
    DepthKeeps(w, u);
    if u.depth == 0 {
      var v := MovePending(u);
      MovePendingFiles(u);
      AllPendingReadied(u, t);
      ReplayKeepsReady(v, w.pended, Replay(v, w.pended), t);
    }
  }

  lemma StepKeepsReleased(w: World, a: Action, t: Task)
    requires Inv(w) && Released(w, t) && LeavesGoing(w, a, t)
    ensures Released(Stepped(w, a), t)
  {
    if !Enabled(w, a) {
    } else if a == DoResumeAll {
      ResumeReleases(w, t);
    } else if a.DoResume? || a.DoResumeFromISR? || a.DoReprioritise? {
      SelfStaysReleased(w, a, t);
    } else if a.DoTick? || a.DoSwitch? || a.DoBlock? || a.DoCleanUp? || a.DoSuspendAll? {
      ClockKeepsReleased(w, a, t);
    } else {
      OthersKeepReleased(w, a, t);
    }
  }

  lemma {:induction false} RunKeepsReleased(w: World, actions: seq<Action>, u: World, t: Task)
    requires Inv(w) && Released(w, t) && KeepsGoing(w, actions, t) && u == Run(w, actions)
    ensures Released(u, t)
    decreases |actions|
  {
    if actions != [] {
      var rest := actions[..|actions| - 1];
      RunKeepsReleased(w, rest, Run(w, rest), t);
      RunKeepsInv(w, rest);
      StepKeepsReleased(Run(w, rest), actions[|actions| - 1], t);
    }
  }

  /**
   * No event is lost.  Once an event has come for a task that waits for it, and
   * whatever happens then, as long as the task is not suspended or deleted and does
   * not itself block again: in every state it is ready or pending, so in every state
   * in which the scheduler is not suspended it is ready.
   */
  lemma EventReleases(w: World, t: Task, actions: seq<Action>, u: World)
    requires Inv(w) && t in w.waiting
    requires KeepsGoing(Unblock(w, t), actions, t) && u == Run(Unblock(w, t), actions)
    ensures t in u.pending || IsReady(u, t)
    ensures u.depth == 0 ==> IsReady(u, t)
  {
    EventReadies(w, t);
    UnblockKeepsInv(w, t);
    RunKeepsReleased(Unblock(w, t), actions, u, t);
    RunKeepsInv(Unblock(w, t), actions);
  }

  /** The same of a suspended task that an interrupt resumes. */
  lemma ResumptionReleases(w: World, t: Task, actions: seq<Action>, u: World)
    requires Inv(w) && t in w.suspended && t !in w.waiting && t !in w.pending
    requires KeepsGoing(ResumeFromISR(w, t), actions, t) && u == Run(ResumeFromISR(w, t), actions)
    ensures u.depth == 0 ==> IsReady(u, t)
  {
    ResumeFromISRReadies(w, t);
    ResumeFromISRKeepsInv(w, t);
    RunKeepsReleased(ResumeFromISR(w, t), actions, u, t);
    RunKeepsInv(ResumeFromISR(w, t), actions);
  }

  // ---- tasks that are not called back -----------------------------------------------------------

  /** The task is with the suspended tasks, and no event has come for it; if `event`, it waits for one. */
  ghost predicate Parked(w: World, t: Task, event: bool) {
    t in w.suspended && t !in w.pending && (event ==> t in w.waiting)
  }

  /** No event for the task and no deletion; no resumption of a task that does not wait for an event. */
  predicate Ignores(a: Action, t: Task, event: bool) {
    match a
    case DoUnblock(u) => u != t
    case DoUnblockUnordered(u) => u != t
    case DoDelete(u) => u != t
    case DoSuspend(u) => event ==> u != t
    case DoResume(u) => !event ==> u != t
    case DoResumeFromISR(u) => !event ==> u != t
    case _ => true
  }

  lemma UntouchedStaysParked(w: World, u: World, t: Task, event: bool)
    requires Untouched(w, u, t) && Parked(w, t, event)
    ensures Parked(u, t, event)
  {
  }

  lemma ParkedIsNotDue(w: World, t: Task, event: bool, limit: nat)
    requires Filed(w, {}) && Parked(w, t, event)
    ensures !IsReady(w, t) && !Due(w, t, limit) && t in w.priority && t !in w.dying
  {
    TasksOfIs(w.sleeping, t);
  }

  lemma EventLeavesParked(w: World, a: Action, t: Task, event: bool)
    requires Inv(w) && Enabled(w, a) && Parked(w, t, event) && Ignores(a, t, event)
    requires a.DoUnblock? || a.DoUnblockUnordered? || a.DoSuspend? || a.DoDelete? || a.DoCreate? || a.DoReprioritise?
    ensures Parked(Exec(w, a), t, event)
  {
    ParkedIsNotDue(w, t, event, 0);
    match a
    case DoUnblock(v) =>
      EventReadies(w, v);
      UntouchedStaysParked(w, Exec(w, a), t, event);
    case DoUnblockUnordered(v) =>
      UnorderedEventReadies(w, v);
      UntouchedStaysParked(w, Exec(w, a), t, event);
    case DoSuspend(v) =>
      SuspendHolds(w, v);
      assert v != t ==> Untouched(w, Exec(w, a), t);
    case DoDelete(v) =>
      DeleteForgets(w, v);
      UntouchedStaysParked(w, Exec(w, a), t, event);
    case DoCreate(v, p) =>
      CreateReadies(w, v, p);
      UntouchedStaysParked(w, Exec(w, a), t, event);
    case DoReprioritise(v, p) =>
      ReprioritiseMoves(w, v, p);
      assert v != t ==> Untouched(w, Exec(w, a), t);
  }

  lemma CallLeavesParked(w: World, a: Action, t: Task, event: bool)
    requires Inv(w) && Enabled(w, a) && Parked(w, t, event) && Ignores(a, t, event)
    requires a.DoResume? || a.DoResumeFromISR? || a.DoTick? || a.DoSwitch? || a.DoBlock? || a.DoCleanUp?
             || a.DoSuspendAll?
    ensures Parked(Exec(w, a), t, event)
  {
    ParkedIsNotDue(w, t, event, w.now + 1);
    match a
    case DoResume(v) =>
      ResumeReadies(w, v);
      assert v != t && Exec(w, a) != w ==> Untouched(w, Exec(w, a), t);
    case DoResumeFromISR(v) =>
      ResumeFromISRReadies(w, v);
      assert v != t && Exec(w, a) != w ==> Untouched(w, Exec(w, a), t);
    case DoTick => TickWakes(w, t);
    case DoSwitch => SwitchMovesNobody(w, t);
    case DoBlock(ticks, indefinitely, e) => BlockTouches(w, ticks, indefinitely, e, t);
    case DoCleanUp =>
      if w.dying != [] {
        CleanUpForgets(w);
        assert Untouched(w, CleanUp(w), t);
      }
    case DoSuspendAll =>
  }

  lemma {:induction false} PendingLeavesParked(w: World, u: World, t: Task, event: bool)
    requires Filed(w, {}) && Parked(w, t, event) && u == MovePending(w)
    ensures Parked(u, t, event)
    decreases |w.pending|
  {
    if w.pending != [] {
      PendingReadied(w);
      MoveOneFiles(w);
      assert Untouched(w, MoveOne(w), t);
      PendingLeavesParked(MoveOne(w), u, t, event);
    }
  }

  lemma WakingLeavesParked(w: World, limit: nat, u: World, t: Task, event: bool)
    requires Filed(w, {}) && Parked(w, t, event) && u == WakeUpTo(w, limit)
    ensures Parked(u, t, event)
  {
    ParkedIsNotDue(w, t, event, limit);
    WokenOrUntouched(w, limit, u, t);
    UntouchedStaysParked(w, u, t, event);
  }

  lemma TickLeavesParked(w: World, t: Task, event: bool, u: World)
    requires Filed(w, {}) && w.depth == 0 && Parked(w, t, event) && u == ReplayOne(w)
    ensures Parked(u, t, event)
  {
    WakingLeavesParked(w, w.now + 1, WakeUpTo(w, w.now + 1), t, event);
  }

  lemma ReplayedLeavesParked(w: World, t: Task, event: bool, u: World)
    requires Filed(w, {}) && w.depth == 0 && Parked(w, t, event) && u == ReplayOne(w)
    ensures Filed(u, {}) && u.depth == 0 && Parked(u, t, event)
  {
    TickLeavesParked(w, t, event, u);
    ReplayOneFiles(w);
    TickCounts(w);
  }

  lemma {:induction false} ReplayLeavesParked(w: World, ticks: nat, u: World, t: Task, event: bool)
    requires Filed(w, {}) && w.depth == 0 && Parked(w, t, event) && u == Replay(w, ticks)
    ensures Filed(u, {}) && u.depth == 0 && Parked(u, t, event)
    decreases ticks
  {
    if ticks > 0 {
      var v := Replay(w, ticks - 1);
      ReplayLeavesParked(w, ticks - 1, v, t, event);
      ReplayedLeavesParked(v, t, event, u);
    }
  }

  lemma ResumeLeavesParked(w: World, t: Task, event: bool)
    requires Inv(w) && w.depth > 0 && Parked(w, t, event)
    ensures Parked(ResumeAll(w), t, event)
  {
    var u := w.(depth := w.depth - 1);
    DepthKeeps(w, u);
    if u.depth == 0 {
      var v := MovePending(u);
      MovePendingFiles(u);
      PendingLeavesParked(u, v, t, event);
      ReplayLeavesParked(v, w.pended, Replay(v, w.pended), t, event);
    }
  }

  lemma StepLeavesParked(w: World, a: Action, t: Task, event: bool)
    requires Inv(w) && Parked(w, t, event) && Ignores(a, t, event)
    ensures Parked(Stepped(w, a), t, event)
  {
    if !Enabled(w, a) {
    } else if a == DoResumeAll {
      ResumeLeavesParked(w, t, event);
    } else if a.DoUnblock? || a.DoUnblockUnordered? || a.DoSuspend? || a.DoDelete? || a.DoCreate? || a.DoReprioritise? {
      EventLeavesParked(w, a, t, event);
    } else {
      CallLeavesParked(w, a, t, event);
    }
  }

  lemma {:induction false} RunLeavesParked(w: World, actions: seq<Action>, u: World, t: Task, event: bool)
    requires Inv(w) && Parked(w, t, event) && u == Run(w, actions)
    requires forall i :: 0 <= i < |actions| ==> Ignores(actions[i], t, event)
    ensures Parked(u, t, event)
    decreases |actions|
  {
    if actions != [] {
      var rest := actions[..|actions| - 1];
      RunLeavesParked(w, rest, Run(w, rest), t, event);
      RunKeepsInv(w, rest);
      StepLeavesParked(Run(w, rest), actions[|actions| - 1], t, event);
    }
  }

  /**
   * Waiting for ever.  A task that blocks with the maximal block time, where that
   * means for ever, is not ready in any later state until an event comes for it, it
   * is deleted or, if it waits for no event, it is resumed: no tick ever wakes it.
   */
  lemma SleepsForEver(w: World, event: bool, actions: seq<Action>, u: World)
    requires Inv(w) && Enabled(w, DoBlock(MAX_DELAY, true, event)) && w.current !in w.pending
    requires u == Run(Block(w, MAX_DELAY, true, event), actions)
    requires forall i :: 0 <= i < |actions| ==> Ignores(actions[i], w.current, event)
    ensures w.current in u.suspended && !IsReady(u, w.current)
  {
    BlockFiles(w, MAX_DELAY, true, event);
    BlockKeepsInv(w, MAX_DELAY, true, event);
    RunLeavesParked(Block(w, MAX_DELAY, true, event), actions, u, w.current, event);
    RunKeepsInv(Block(w, MAX_DELAY, true, event), actions);
  }

  /** A suspended task is not ready in any later state until it is resumed or deleted. */
  lemma StaysSuspendedUntilResumed(w: World, t: Task, actions: seq<Action>, u: World)
    requires Inv(w) && Enabled(w, DoSuspend(t)) && u == Run(Suspend(w, t), actions)
    requires forall i :: 0 <= i < |actions| ==> Ignores(actions[i], t, false)
    ensures t in u.suspended && !IsReady(u, t)
  {
    SuspendHolds(w, t);
    SuspendKeepsInv(w, t);
    RunLeavesParked(Suspend(w, t), actions, u, t, false);
    RunKeepsInv(Suspend(w, t), actions);
  }

  // ---- switches that have been asked for ---------------------------------------------------------

  lemma {:induction false} WakingKeepsRequest(w: World, limit: nat)
    ensures WakeUpTo(w, limit).yieldPending == w.yieldPending
    decreases |w.sleeping|
  {
    if w.sleeping != [] && w.sleeping[0].wake <= limit {
      WakingKeepsRequest(WakeHead(w), limit);
    }
  }

  lemma {:induction false} ReplayKeepsRequest(w: World, ticks: nat, u: World)
    requires w.yieldPending && u == Replay(w, ticks)
    ensures u.yieldPending
    decreases ticks
  {
    if ticks > 0 {
      ReplayKeepsRequest(w, ticks - 1, Replay(w, ticks - 1));
    }
  }

  lemma ResumeKeepsRequest(w: World)
    requires Inv(w) && w.depth > 0 && w.yieldPending
    ensures ResumeAll(w).yieldPending
  {
    var u := w.(depth := w.depth - 1);
    DepthKeeps(w, u);
    if u.depth == 0 {
      PendingAsksForSwitch(u);
      ReplayKeepsRequest(MovePending(u), w.pended, Replay(MovePending(u), w.pended));
    }
  }

  /** No request for a switch is lost: only a switch that is carried out takes it back. */
  lemma RequestStays(w: World, a: Action)
    requires Inv(w) && w.yieldPending && !(a == DoSwitch && w.depth == 0)
    ensures Stepped(w, a).yieldPending
  {
    if a == DoTick {
      WakingKeepsRequest(w, w.now + 1);
    } else if a == DoResumeAll {
      if w.depth > 0 {
        ResumeKeepsRequest(w);
      }
    } else {
      OthersKeepRequest(w, a);
    }
  }

  lemma OthersKeepRequest(w: World, a: Action)
    requires w.yieldPending && a != DoTick && a != DoResumeAll && !(a == DoSwitch && w.depth == 0)
    ensures Stepped(w, a).yieldPending
  {
  }

  /** Whether a run performs a switch. */
  ghost predicate Switches(w: World, actions: seq<Action>) {
    actions != [] && (
      var rest := actions[..|actions| - 1];
      Switches(w, rest) || (actions[|actions| - 1] == DoSwitch && Run(w, rest).depth == 0))
  }

  lemma {:induction false} RequestStaysUntilSwitch(w: World, actions: seq<Action>, u: World)
    requires Inv(w) && w.yieldPending && u == Run(w, actions) && !Switches(w, actions)
    ensures u.yieldPending
    decreases |actions|
  {
    if actions != [] {
      var rest := actions[..|actions| - 1];
      RequestStaysUntilSwitch(w, rest, Run(w, rest));
      RunKeepsInv(w, rest);
      RequestStays(Run(w, rest), actions[|actions| - 1]);
    }
  }

  /**
   * Preemption by an event: if the task an event is for has a higher priority than
   * the current one, a switch is asked for, and that switch runs a task of at least
   * the priority of the one woken.
   */
  lemma EventPreempts(w: World, t: Task, u: World)
    requires Inv(w) && w.depth == 0 && t in w.waiting && w.priority[t] > w.priority[w.current]
    requires u == Unblock(w, t)
    ensures u.yieldPending
    ensures var v := Switch(u); v.current in v.priority && v.priority[v.current] >= w.priority[t]
  {
    EventReadies(w, t);
    UnblockKeepsInv(w, t);
    SwitchPicksHighest(u);
    SwitchMovesNobody(u, t);
  }

  // ---- nested suspensions ---------------------------------------------------------------------------

  /** How often a run suspends the scheduler, and how often it resumes it. */
  function Suspensions(actions: seq<Action>): nat {
    if actions == [] then 0
    else Suspensions(actions[..|actions| - 1]) + Count(actions[|actions| - 1] == DoSuspendAll)
  }

  ghost function Resumptions(w: World, actions: seq<Action>): nat {
    if actions == [] then 0
    else
      var rest := actions[..|actions| - 1];
      Resumptions(w, rest) + Count(actions[|actions| - 1] == DoResumeAll && Run(w, rest).depth > 0)
  }

  lemma StepNests(w: World, a: Action)
    requires Inv(w)
    ensures Stepped(w, a).depth + Count(a == DoResumeAll && w.depth > 0) == w.depth + Count(a == DoSuspendAll)
  {
    if a == DoTick {
      TickCounts(w);
    } else if a == DoResumeAll {
      if w.depth == 1 {
        DepthKeeps(w, w.(depth := 0));
        SettleFiles(w.(depth := 0));
      }
    } else {
      OthersKeepDepth(w, a);
    }
  }

  lemma OthersKeepDepth(w: World, a: Action)
    requires a != DoTick && a != DoResumeAll
    ensures Stepped(w, a).depth == w.depth + Count(a == DoSuspendAll)
  {
  }

  /** Suspensions nest: the scheduler runs again exactly when it has been resumed as often as it was suspended. */
  lemma {:induction false} SuspensionsNest(w: World, actions: seq<Action>, u: World)
    requires Inv(w) && u == Run(w, actions)
    ensures u.depth + Resumptions(w, actions) == w.depth + Suspensions(actions)
    decreases |actions|
  {
    if actions != [] {
      var rest := actions[..|actions| - 1];
      SuspensionsNest(w, rest, Run(w, rest));
      RunKeepsInv(w, rest);
      StepNests(Run(w, rest), actions[|actions| - 1]);
    }
  }
}
