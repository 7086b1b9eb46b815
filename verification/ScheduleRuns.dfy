/**
 * What the scheduler keeps over every run: where tasks are, when they wake, that
 * ticks are not lost while it is suspended, and which task it picks.
 */
module ScheduleRuns {
  import opened Ticks
  import opened Rings
  import opened Schedule

  datatype Action =
    | DoTick
    | DoBlock(ticks: Tick, indefinitely: bool, event: bool)
    | DoSwitch
    | DoSuspendAll
    | DoResumeAll
    | DoUnblock(task: Task)
    | DoUnblockUnordered(task: Task)
    | DoSuspend(task: Task)
    | DoResume(task: Task)
    | DoResumeFromISR(task: Task)
    | DoDelete(task: Task)
    | DoCleanUp
    | DoCreate(task: Task, priority: nat)
    | DoReprioritise(task: Task, priority: nat)

  /** The idle task is never blocked, suspended or deleted; a deleted task is not named again. */
  predicate Enabled(w: World, a: Action) {
    match a
    case DoBlock(ticks, _, _) => IsReady(w, w.current) && w.current != w.idle && ticks > 0
    case DoResumeAll => w.depth > 0
    case DoUnblock(t) => t in w.waiting
    case DoUnblockUnordered(t) => t in w.waiting && w.depth > 0
    case DoSuspend(t) => t in w.priority && t != w.idle && t !in w.dying
    case DoDelete(t) => t in w.priority && t != w.idle && t !in w.dying
    case DoCleanUp => w.current == w.idle
    case DoCreate(t, p) => t !in w.priority && p < |w.ready|
    case DoReprioritise(t, p) => t in w.priority && p < |w.ready|
    case _ => true
  }

  ghost function Exec(w: World, a: Action): World
    requires Enabled(w, a)
  {
    match a
    case DoTick => IncrementTick(w)
    case DoBlock(ticks, indefinitely, event) => Block(w, ticks, indefinitely, event)
    case DoSwitch => Switch(w)
    case DoSuspendAll => SuspendAll(w)
    case DoResumeAll => ResumeAll(w)
    case DoUnblock(t) => Unblock(w, t)
    case DoUnblockUnordered(t) => UnblockUnordered(w, t)
    case DoSuspend(t) => Suspend(w, t)
    case DoResume(t) => Resume(w, t)
    case DoResumeFromISR(t) => ResumeFromISR(w, t)
    case DoDelete(t) => Delete(w, t)
    case DoCleanUp => CleanUp(w)
    case DoCreate(t, p) => Create(w, t, p)
    case DoReprioritise(t, p) => Reprioritise(w, t, p)
  }

  lemma StepKeepsInv(w: World, a: Action)
    requires Inv(w) && Enabled(w, a)
    ensures Inv(Exec(w, a))
  {
    match a
    case DoTick => TickKeepsInv(w);
    case DoBlock(ticks, indefinitely, event) => BlockKeepsInv(w, ticks, indefinitely, event);
    case DoSwitch => SwitchKeepsInv(w);
    case DoSuspendAll => SuspendAllKeepsInv(w);
    case DoResumeAll => ResumeAllKeepsInv(w);
    case DoUnblock(t) => UnblockKeepsInv(w, t);
    case DoUnblockUnordered(t) => UnblockUnorderedKeepsInv(w, t);
    case DoSuspend(t) => SuspendKeepsInv(w, t);
    case DoResume(t) => ResumeKeepsInv(w, t);
    case DoResumeFromISR(t) => ResumeFromISRKeepsInv(w, t);
    case DoDelete(t) => DeleteKeepsInv(w, t);
    case DoCleanUp => CleanUpKeepsInv(w);
    case DoCreate(t, p) => CreateKeepsInv(w, t, p);
    case DoReprioritise(t, p) => ReprioritiseKeepsInv(w, t, p);
  }

  /** A step that is not enabled is skipped. */
  ghost function Stepped(w: World, a: Action): World {
    if Enabled(w, a) then Exec(w, a) else w
  }

  ghost function Run(w: World, actions: seq<Action>): World {
    if actions == [] then w
    else Stepped(Run(w, actions[..|actions| - 1]), actions[|actions| - 1])
  }

  lemma {:induction false} RunKeepsInv(w: World, actions: seq<Action>)
    requires Inv(w)
    ensures Inv(Run(w, actions))
  {
    if actions != [] {
      var before := Run(w, actions[..|actions| - 1]);
      RunKeepsInv(w, actions[..|actions| - 1]);
      if Enabled(before, actions[|actions| - 1]) {
        StepKeepsInv(before, actions[|actions| - 1]);
      }
    }
  }

  // ---- the partition --------------------------------------------------------------------------

  /** How many tasks the ready lists for priorities below `p` hold. */
  function ReadyUpTo(ready: seq<ReadyList>, p: nat): nat
    requires p <= |ready|
  {
    if p == 0 then 0 else ReadyUpTo(ready, p - 1) + |ready[p - 1].items|
  }

  function TotalReady(ready: seq<ReadyList>): nat {
    ReadyUpTo(ready, |ready|)
  }

  function Count(b: bool): nat {
    if b then 1 else 0
  }

  /**
   * Each task is in exactly one of the ready, delayed, suspended and termination
   * lists, a ready task in the list of its priority; the lists hold as many tasks as
   * there are; and nothing is pending while the scheduler is not suspended.
   */
  ghost predicate InOnePlace(u: World) {
    && (forall t :: t in u.priority ==>
          Count(IsReady(u, t)) + Count(IsSleeping(u, t)) + Count(t in u.suspended) + Count(t in u.dying) == 1)
    && (forall p, t :: 0 <= p < |u.ready| && t in u.ready[p].items ==> t in u.priority && u.priority[t] == p)
    && |u.priority| == TotalReady(u.ready) + |u.sleeping| + |u.suspended| + |u.dying|
    && (u.depth == 0 ==> u.pending == [])
  }

  /** In every reachable state each task is in its one place. */
  lemma EveryTaskInOnePlace(w: World, actions: seq<Action>)
    requires Inv(w)
    ensures InOnePlace(Run(w, actions))
  {
    RunKeepsInv(w, actions);
    PlacedOnce(Run(w, actions));
  }

  lemma PlacedOnce(u: World)
    requires Inv(u)
    ensures InOnePlace(u)
  {
    PlacesAddUp(u);
  }

  ghost function ReadyBelow(w: World, k: nat): set<Task>
    requires k <= |w.ready|
  {
    set t | t in w.priority && w.priority[t] < k && t in w.ready[w.priority[t]].items
  }

  lemma {:induction false} ReadySize(w: World, k: nat)
    requires ReadyLists(w) && k <= |w.ready|
    ensures |ReadyBelow(w, k)| == ReadyUpTo(w.ready, k)
    decreases k
  {
    if k > 0 {
      ReadySize(w, k - 1);
      ElementsSize(w.ready[k - 1].items);
      ReadyGrows(w, k - 1);
    } else {
      assert ReadyBelow(w, k) == {};
    }
  }

  lemma ReadyGrows(w: World, k: nat)
    requires ReadyLists(w) && k < |w.ready|
    ensures ReadyBelow(w, k + 1) == ReadyBelow(w, k) + Elements(w.ready[k].items)
    ensures ReadyBelow(w, k) !! Elements(w.ready[k].items)
  {
  }

  lemma Disjoint4<T>(a: set<T>, b: set<T>, c: set<T>, d: set<T>, all: set<T>)
    requires forall x :: x in all <==> x in a || x in b || x in c || x in d
    requires a !! b && a !! c && a !! d && b !! c && b !! d && c !! d
    ensures |all| == |a| + |b| + |c| + |d|
  {
    assert all == a + b + c + d;
  }

  lemma PlacesAddUp(w: World)
    requires Inv(w)
    ensures |w.priority| == TotalReady(w.ready) + |w.sleeping| + |w.suspended| + |w.dying|
  {
    var r, z := ReadyBelow(w, |w.ready|), Elements(TasksOf(w.sleeping));
    var s, d := Elements(w.suspended), Elements(w.dying);
    ReadySize(w, |w.ready|);
    assert Distinct(TasksOf(w.sleeping));
    ElementsSize(TasksOf(w.sleeping));
    ElementsSize(w.suspended);
    ElementsSize(w.dying);
    assert forall t: Task :: (t in r <==> IsReady(w, t)) && (t in z <==> IsSleeping(w, t));
    PlacesAdd(w, r, z, s, d);
  }

  lemma PlacesAdd(w: World, r: set<Task>, z: set<Task>, s: set<Task>, d: set<Task>)
    requires Inv(w)
    requires forall t: Task :: (t in r <==> IsReady(w, t)) && (t in z <==> IsSleeping(w, t))
    requires forall t: Task :: (t in s <==> t in w.suspended) && (t in d <==> t in w.dying)
    ensures |w.priority| == |r| + |z| + |s| + |d|
  {
    Disjoint4(r, z, s, d, w.priority.Keys);
  }

  // ---- waking up --------------------------------------------------------------------------------

  /** The task sleeps until `wake`, and no event has called it back. */
  ghost predicate Asleep(w: World, t: Task, wake: nat) {
    Sleeper(t, wake) in w.sleeping && t !in w.pending
  }

  /** No kernel call but the passing of time concerns the task: no event for it, no suspension, no deletion. */
  predicate LeavesAlone(a: Action, t: Task) {
    match a
    case DoUnblock(u) => u != t
    case DoUnblockUnordered(u) => u != t
    case DoSuspend(u) => u != t
    case DoDelete(u) => u != t
    case _ => true
  }

  lemma AsleepIsSleeping(w: World, t: Task, wake: nat)
    requires Inv(w) && Asleep(w, t, wake)
    ensures IsSleeping(w, t) && !IsReady(w, t) && t in w.priority && t != w.idle
    ensures t !in w.suspended && t !in w.dying && wake > w.now
  {
    TasksOfIs(w.sleeping, t);
  }

  lemma DetachLeaves(w: World, u: Task, t: Task, wake: nat)
    requires InOrder(w.sleeping) && Sleeper(t, wake) in w.sleeping && u != t
    ensures Sleeper(t, wake) in Detach(w, u).sleeping
  {
    RemoveFacts(w.sleeping, u);
  }

  lemma MakeReadyLeaves(w: World, u: Task, t: Task, wake: nat)
    requires InOrder(w.sleeping) && Asleep(w, t, wake) && u != t
    ensures Asleep(MakeReady(w, u), t, wake)
  {
    DetachLeaves(w, u, t, wake);
  }

  lemma {:induction false} ReadyStays(w: World, limit: nat, t: Task)
    requires Filed(w, {}) && IsReady(w, t)
    ensures IsReady(WakeUpTo(w, limit), t)
    decreases |w.sleeping|
  {
    if w.sleeping != [] && w.sleeping[0].wake <= limit {
      WakeHeadFiles(w);
      WokenIsReady(w);
      ReadyStays(WakeHead(w), limit, t);
    }
  }

  lemma WokenIsReady(w: World)
    requires Filed(w, {}) && w.sleeping != []
    ensures forall v: Task :: IsReady(WakeHead(w), v) <==> IsReady(w, v) || v == w.sleeping[0].task
  {
    var t := w.sleeping[0].task;
    var u := w.(sleeping := w.sleeping[1..]);
    HeadFrees(w);
    ClearEventKeeps(u, t, {t});
    AddedToItsList(ClearEvent(u, t), t);
  }

  /** Waking all who are due by `limit` wakes a sleeper exactly if it is due by then. */
  lemma {:induction false} WakesExactly(w: World, limit: nat, t: Task, wake: nat)
    requires Filed(w, {}) && Asleep(w, t, wake)
    ensures if wake <= limit then IsReady(WakeUpTo(w, limit), t) else Asleep(WakeUpTo(w, limit), t, wake)
    decreases |w.sleeping|
  {
    var i :| 0 <= i < |w.sleeping| && w.sleeping[i] == Sleeper(t, wake);
    if w.sleeping != [] && w.sleeping[0].wake <= limit {
      WakeHeadFiles(w);
      WokenIsReady(w);
      if i == 0 {
        ReadyStays(WakeHead(w), limit, t);
      } else {
        RemovedFacts(w.pending, w.sleeping[0].task);
        assert w.sleeping[1..][i - 1] == Sleeper(t, wake);
        WakesExactly(WakeHead(w), limit, t, wake);
      }
    }
  }

  /** A task is awake in time if it sleeps while its time has not come and is ready when it has. */
  ghost predicate InTime(w: World, t: Task, wake: nat) {
    if w.now < wake then Asleep(w, t, wake) else IsReady(w, t)
  }

  lemma TickInTime(w: World, t: Task, wake: nat)
    requires Filed(w, {}) && InTime(w, t, wake)
    ensures InTime(IncrementTick(w), t, wake)
  {
    if w.depth == 0 {
      WakeUpToCounts(w, w.now + 1);
      if w.now < wake {
        WakesExactly(w, w.now + 1, t, wake);
      } else {
        ReadyStays(w, w.now + 1, t);
      }
    }
  }

  lemma ReplayOneInTime(w: World, t: Task, wake: nat)
    requires Filed(w, {}) && InTime(w, t, wake)
    ensures Filed(ReplayOne(w), {}) && InTime(ReplayOne(w), t, wake)
  {
    TickInTime(w, t, wake);
    ReplayOneFiles(w);
  }

  lemma {:induction false} ReplayInTime(w: World, ticks: nat, u: World, t: Task, wake: nat)
    requires Filed(w, {}) && InTime(w, t, wake) && u == Replay(w, ticks)
    ensures Filed(u, {}) && InTime(u, t, wake)
    decreases ticks
  {
    if ticks > 0 {
      var v := Replay(w, ticks - 1);
      ReplayInTime(w, ticks - 1, v, t, wake);
      ReplayOneInTime(v, t, wake);
    }
  }

  lemma MoveOneLeaves(w: World, t: Task, wake: nat)
    requires Filed(w, {}) && Asleep(w, t, wake) && w.pending != []
    ensures Asleep(MoveOne(w), t, wake)
  {
    assert w.pending == [w.pending[0]] + w.pending[1..];
    MakeReadyLeaves(w.(pending := w.pending[1..]), w.pending[0], t, wake);
  }

  lemma {:induction false} MovePendingLeaves(w: World, t: Task, wake: nat)
    requires Filed(w, {}) && Asleep(w, t, wake)
    ensures Asleep(MovePending(w), t, wake)
    decreases |w.pending|
  {
    if w.pending != [] {
      MoveOneFiles(w);
      MoveOneLeaves(w, t, wake);
      MovePendingLeaves(MoveOne(w), t, wake);
    }
  }

  lemma ResumeAllInTime(w: World, t: Task, wake: nat)
    requires Inv(w) && w.depth > 0 && Asleep(w, t, wake)
    ensures InTime(ResumeAll(w), t, wake)
  {
    AsleepIsSleeping(w, t, wake);
    var u := w.(depth := w.depth - 1);
    DepthKeeps(w, u);
    if u.depth == 0 {
      MovePendingLeaves(u, t, wake);
      MovePendingFiles(u);
      ReplayInTime(MovePending(u), u.pended, Replay(MovePending(u), u.pended), t, wake);
    }
  }

  lemma BlockLeaves(w: World, ticks: Tick, indefinitely: bool, event: bool, t: Task, wake: nat)
    requires Inv(w) && Enabled(w, DoBlock(ticks, indefinitely, event)) && Asleep(w, t, wake)
    ensures Asleep(Block(w, ticks, indefinitely, event), t, wake)
  {
    AsleepIsSleeping(w, t, wake);
    DetachLeaves(w, w.current, t, wake);
    LeaveFrees(w, w.current, event);
    FallAsleepLeaves(Leave(w, w.current, event), w.current, ticks, indefinitely, t, wake);
  }

  lemma FallAsleepLeaves(w: World, u: Task, ticks: Tick, indefinitely: bool, t: Task, wake: nat)
    requires Filed(w, {u}) && Asleep(w, t, wake)
    ensures Asleep(FallAsleep(w, u, ticks, indefinitely), t, wake)
  {
    TasksOfIs(w.sleeping, u);
    InsertFacts(w.sleeping, Sleeper(u, w.now + ticks));
  }

  lemma EventLeaves(w: World, a: Action, t: Task, wake: nat)
    requires Inv(w) && Enabled(w, a) && LeavesAlone(a, t) && Asleep(w, t, wake)
    requires a.DoUnblock? || a.DoUnblockUnordered? || a.DoResume? || a.DoResumeFromISR?
    ensures Asleep(Exec(w, a), t, wake)
  {
    AsleepIsSleeping(w, t, wake);
    RemoveFacts(w.sleeping, a.task);
  }

  lemma ReprioritiseLeaves(w: World, u: Task, p: nat, t: Task, wake: nat)
    requires Inv(w) && Asleep(w, t, wake)
    ensures Asleep(Reprioritise(w, u, p), t, wake)
  {
    AsleepIsSleeping(w, t, wake);
    RemoveFacts(w.sleeping, u);
  }

  lemma SuspendLeaves(w: World, a: Action, t: Task, wake: nat)
    requires Inv(w) && Enabled(w, a) && LeavesAlone(a, t) && Asleep(w, t, wake)
    requires a.DoSuspend? || a.DoDelete? || a.DoCreate? || a.DoCleanUp? || a.DoSwitch? || a.DoSuspendAll?
    ensures Asleep(Exec(w, a), t, wake)
  {
    AsleepIsSleeping(w, t, wake);
    if a.DoSuspend? || a.DoDelete? {
      RemoveFacts(w.sleeping, a.task);
      RemovedFacts(w.pending, a.task);
    }
  }

  lemma StepInTime(w: World, a: Action, t: Task, wake: nat)
    requires Inv(w) && LeavesAlone(a, t) && w.now < wake && InTime(w, t, wake)
    ensures Inv(Stepped(w, a)) && InTime(Stepped(w, a), t, wake)
  {
    AsleepIsSleeping(w, t, wake);
    if Enabled(w, a) {
      StepKeepsInv(w, a);
      match a
      case DoTick => TickInTime(w, t, wake);
      case DoResumeAll => ResumeAllInTime(w, t, wake);
      case DoBlock(ticks, indefinitely, event) => BlockLeaves(w, ticks, indefinitely, event, t, wake);
      case DoSuspend(_) => SuspendLeaves(w, a, t, wake);
      case DoDelete(_) => SuspendLeaves(w, a, t, wake);
      case DoCreate(_, _) => SuspendLeaves(w, a, t, wake);
      case DoCleanUp => SuspendLeaves(w, a, t, wake);
      case DoSwitch => SuspendLeaves(w, a, t, wake);
      case DoSuspendAll => SuspendLeaves(w, a, t, wake);
      case DoReprioritise(u, p) => ReprioritiseLeaves(w, u, p, t, wake);
      case _ => EventLeaves(w, a, t, wake);
    }
  }

  /** The time stays before `wake` up to the last action. */
  ghost predicate Before(w: World, actions: seq<Action>, wake: nat) {
    forall k :: 0 <= k < |actions| ==> Run(w, actions[..k]).now < wake
  }

  lemma BeforeInPart(w: World, actions: seq<Action>, wake: nat)
    requires actions != [] && Before(w, actions, wake)
    ensures var rest := actions[..|actions| - 1];
            Before(w, rest, wake) && Run(w, rest).now < wake
  {
    var rest := actions[..|actions| - 1];
    forall k | 0 <= k < |rest|
      ensures Run(w, rest[..k]).now < wake
    {
      assert rest[..k] == actions[..k];
    }
  }

  lemma {:induction false} RunInTime(w: World, actions: seq<Action>, t: Task, wake: nat)
    requires Inv(w) && InTime(w, t, wake) && Before(w, actions, wake)
    requires forall i :: 0 <= i < |actions| ==> LeavesAlone(actions[i], t)
    ensures Inv(Run(w, actions)) && InTime(Run(w, actions), t, wake)
  {
    if actions != [] {
      var rest := actions[..|actions| - 1];
      BeforeInPart(w, actions, wake);
      RunInTime(w, rest, t, wake);
      StepInTime(Run(w, rest), actions[|actions| - 1], t, wake);
    }
  }

  /**
   * Exact wake-up.  The current task blocks for d ticks at time T.  Whatever then
   * happens that does not concern it, over any number of wraps of the counter and
   * with ticks processed at once or pended and processed later, in every state
   * reached it is asleep while the time is before T + d; and in the first state at
   * or after T + d it is ready.
   */
  lemma WakesOnTime(w: World, ticks: Tick, indefinitely: bool, event: bool, asleep: World, actions: seq<Action>)
    requires Inv(w) && Enabled(w, DoBlock(ticks, indefinitely, event)) && w.current !in w.pending
    requires !(ticks == MAX_DELAY && indefinitely)
    requires asleep == Block(w, ticks, indefinitely, event)
    requires Before(asleep, actions, w.now + ticks)
    requires forall i :: 0 <= i < |actions| ==> LeavesAlone(actions[i], w.current)
    ensures InTime(Run(asleep, actions), w.current, w.now + ticks)
  {
    BlockSleeps(w, ticks, indefinitely, event);
    RunInTime(asleep, actions, w.current, w.now + ticks);
  }

  lemma BlockSleeps(w: World, ticks: Tick, indefinitely: bool, event: bool)
    requires Inv(w) && Enabled(w, DoBlock(ticks, indefinitely, event)) && w.current !in w.pending
    requires !(ticks == MAX_DELAY && indefinitely)
    ensures var u := Block(w, ticks, indefinitely, event);
            Inv(u) && InTime(u, w.current, w.now + ticks)
  {
    BlockKeepsInv(w, ticks, indefinitely, event);
    var v := Leave(w, w.current, event);
    LeaveFrees(w, w.current, event);
    TasksOfIs(v.sleeping, w.current);
    InsertFacts(v.sleeping, Sleeper(w.current, w.now + ticks));
  }

  // ---- ticks while the scheduler is suspended --------------------------------------------------

  function TicksIn(actions: seq<Action>): nat {
    if actions == [] then 0
    else TicksIn(actions[..|actions| - 1]) + Count(actions[|actions| - 1] == DoTick)
  }

  /** No tick is lost: those processed and those pended are together those that occurred. */
  lemma {:induction false} TicksAreConserved(w: World, actions: seq<Action>)
    requires Inv(w)
    ensures var u := Run(w, actions);
            u.now + u.pended == w.now + w.pended + TicksIn(actions)
  {
    if actions != [] {
      var before, a := Run(w, actions[..|actions| - 1]), actions[|actions| - 1];
      TicksAreConserved(w, actions[..|actions| - 1]);
      RunKeepsInv(w, actions[..|actions| - 1]);
      StepCountsTicks(before, a);
    }
  }

  lemma StepCountsTicks(w: World, a: Action)
    requires Inv(w)
    ensures var u := Stepped(w, a);
            u.now + u.pended == w.now + w.pended + Count(a == DoTick)
  {
    if a == DoTick {
      TickCounts(w);
    } else if a == DoResumeAll {
      if w.depth == 1 {
        DepthKeeps(w, w.(depth := 0));
        SettleFiles(w.(depth := 0));
      }
    } else {
      OthersKeepClock(w, a);
    }
  }

  lemma OthersKeepClock(w: World, a: Action)
    requires a != DoTick && a != DoResumeAll
    ensures Stepped(w, a).now == w.now && Stepped(w, a).pended == w.pended
  {
  }

  /** The state without what only the suspension of the scheduler changes. */
  function Visible(w: World): World {
    w.(depth := 0, pended := 0, yieldPending := false)
  }

  ghost function DirectTicks(w: World, n: nat): World {
    if n == 0 then w else IncrementTick(DirectTicks(w, n - 1))
  }

  lemma {:induction false} WakingIsVisible(u: World, v: World, limit: nat)
    requires Visible(u) == Visible(v)
    ensures Visible(WakeUpTo(u, limit)) == Visible(WakeUpTo(v, limit))
    decreases |u.sleeping|
  {
    if u.sleeping != [] && u.sleeping[0].wake <= limit {
      WakingIsVisible(WakeHead(u), WakeHead(v), limit);
    }
  }

  lemma TickIsVisible(u: World, v: World)
    requires Visible(u) == Visible(v) && u.depth == 0 && v.depth == 0
    ensures Visible(IncrementTick(u)) == Visible(IncrementTick(v))
  {
    WakingIsVisible(u, v, u.now + 1);
    WakeUpToCounts(u, u.now + 1);
    WakeUpToCounts(v, u.now + 1);
  }

  lemma {:induction false} TicksKeepDepth(w: World, n: nat)
    requires w.depth == 0
    ensures DirectTicks(w, n).depth == 0
  {
    if n > 0 {
      TicksKeepDepth(w, n - 1);
      TickCounts(DirectTicks(w, n - 1));
    }
  }

  lemma {:induction false} TicksAdd(w: World, m: nat, n: nat)
    ensures DirectTicks(DirectTicks(w, m), n) == DirectTicks(w, m + n)
  {
    if n > 0 {
      TicksAdd(w, m, n - 1);
    }
  }

  lemma {:induction false} ReplayIsTicks(w: World, n: nat, u: World, v: World)
    requires w.depth == 0 && u == Replay(w, n) && v == DirectTicks(w, n)
    ensures Visible(u) == Visible(v)
    decreases n
  {
    if n > 0 {
      var a, b := Replay(w, n - 1), DirectTicks(w, n - 1);
      ReplayIsTicks(w, n - 1, a, b);
      ReplayCounts(w, n - 1);
      TicksKeepDepth(w, n - 1);
      TickIsVisible(a, b);
    }
  }

  /**
   * The outermost resume of the scheduler catches up: what is pending is made ready,
   * and then every pended tick has the effect it would have had on its own.
   */
  lemma ResumeCatchesUp(w: World)
    requires w.depth == 1
    ensures Visible(ResumeAll(w)) == Visible(DirectTicks(MovePending(w.(depth := 0)), w.pended))
  {
    var u := MovePending(w.(depth := 0));
    MovePendingCounts(w.(depth := 0));
    ReplayIsTicks(u, w.pended, Replay(u, w.pended), DirectTicks(u, w.pended));
  }

  lemma {:induction false} MovePendingCounts(w: World)
    ensures MovePending(w).depth == w.depth && MovePending(w).pended == w.pended
    decreases |w.pending|
  {
    if w.pending != [] {
      MovePendingCounts(MoveOne(w));
    }
  }

  function WithoutTicks(actions: seq<Action>): seq<Action> {
    if actions == [] then []
    else
      var rest, a := actions[..|actions| - 1], actions[|actions| - 1];
      if a == DoTick then WithoutTicks(rest) else WithoutTicks(rest) + [a]
  }

  /** The scheduler is suspended after any number of the actions. */
  ghost predicate StaysSuspended(w: World, actions: seq<Action>) {
    Run(w, actions).depth > 0 && (actions == [] || StaysSuspended(w, actions[..|actions| - 1]))
  }

  lemma CallIgnoresPended(w: World, a: Action, pended: nat)
    requires w.depth > 0 && Enabled(w, a)
    requires a.DoUnblock? || a.DoUnblockUnordered? || a.DoResume? || a.DoResumeFromISR? || a.DoReprioritise?
    ensures Enabled(w.(pended := pended), a) && Exec(w.(pended := pended), a) == Exec(w, a).(pended := pended)
  {
  }

  lemma MoveIgnoresPended(w: World, a: Action, pended: nat)
    requires w.depth > 0 && Enabled(w, a)
    requires a.DoBlock? || a.DoSuspend? || a.DoDelete? || a.DoCreate? || a.DoCleanUp? || a.DoSwitch? || a.DoSuspendAll?
    ensures Enabled(w.(pended := pended), a) && Exec(w.(pended := pended), a) == Exec(w, a).(pended := pended)
  {
  }

  lemma ResumeIgnoresPended(w: World, pended: nat)
    requires w.depth > 0 && ResumeAll(w).depth > 0
    ensures ResumeAll(w.(pended := pended)) == ResumeAll(w).(pended := pended)
  {
    if w.depth == 1 {
      MovePendingCounts(w.(depth := 0));
      ReplayCounts(MovePending(w.(depth := 0)), w.pended);
    }
  }

  /** While the scheduler stays suspended no call depends on the number of pended ticks. */
  lemma PendedIsNotRead(w: World, a: Action, pended: nat)
    requires w.depth > 0 && a != DoTick && Stepped(w, a).depth > 0
    ensures Stepped(w.(pended := pended), a) == Stepped(w, a).(pended := pended)
  {
    if !Enabled(w, a) {
    } else if a == DoResumeAll {
      ResumeIgnoresPended(w, pended);
    } else if a.DoUnblock? || a.DoUnblockUnordered? || a.DoResume? || a.DoResumeFromISR? || a.DoReprioritise? {
      CallIgnoresPended(w, a, pended);
    } else {
      MoveIgnoresPended(w, a, pended);
    }
  }

  lemma RunNext(w: World, actions: seq<Action>, a: Action)
    ensures Run(w, actions + [a]) == Stepped(Run(w, actions), a)
  {
    assert (actions + [a])[..|actions|] == actions;
  }

  lemma TickAddsUp(w: World, actions: seq<Action>)
    requires Run(w, actions).depth > 0
    ensures var u := Run(w, actions); Run(w, actions + [DoTick]) == u.(pended := u.pended + 1)
  {
    RunNext(w, actions, DoTick);
  }

  lemma OtherAddsUp(w: World, actions: seq<Action>, others: seq<Action>, a: Action)
    requires a != DoTick && Run(w, actions).depth > 0 && Run(w, actions + [a]).depth > 0
    requires Run(w, actions) == Run(w, others).(pended := Run(w, actions).pended)
    ensures Run(w, actions + [a]) == Run(w, others + [a]).(pended := Run(w, actions).pended)
  {
    var u, v := Run(w, actions), Run(w, others);
    RunNext(w, actions, a);
    RunNext(w, others, a);
    PendedIsNotRead(u, a, v.pended);
    PendedIsNotRead(v, a, u.pended);
  }

  lemma OneMoreAddsUp(w: World, actions: seq<Action>, base: nat)
    requires actions != [] && Run(w, actions).depth > 0
    requires var rest := actions[..|actions| - 1];
             Run(w, rest).depth > 0 && Run(w, rest) == Run(w, WithoutTicks(rest)).(pended := base + TicksIn(rest))
    ensures Run(w, actions) == Run(w, WithoutTicks(actions)).(pended := base + TicksIn(actions))
  {
    var rest, a := actions[..|actions| - 1], actions[|actions| - 1];
    assert actions == rest + [a];
    if a == DoTick {
      TickAddsUp(w, rest);
    } else {
      OtherAddsUp(w, rest, WithoutTicks(rest), a);
    }
  }

  /** While the scheduler stays suspended ticks do nothing but add up. */
  lemma {:induction false} TicksAddUp(w: World, actions: seq<Action>)
    requires StaysSuspended(w, actions)
    ensures Run(w, actions) == Run(w, WithoutTicks(actions)).(pended := w.pended + TicksIn(actions))
    decreases |actions|
  {
    if actions != [] {
      TicksAddUp(w, actions[..|actions| - 1]);
      OneMoreAddsUp(w, actions, w.pended);
    }
  }

  /**
   * A suspension defers ticks.  Whatever tasks and interrupts do while the scheduler
   * is suspended - block, unblock, suspend, resume, create, delete, nest suspensions -
   * the outermost resume leaves what the same calls without any tick, then the
   * release of what is pending, and then the same number of ticks would have left.
   */
  lemma SuspensionDefersTicks(w: World, actions: seq<Action>, u: World, v: World, n: nat)
    requires StaysSuspended(w, actions) && u == Run(w, actions) && u.depth == 1
    requires v == Run(w, WithoutTicks(actions)) && n == w.pended + TicksIn(actions)
    ensures Visible(ResumeAll(u)) == Visible(DirectTicks(MovePending(v.(depth := 0)), n))
  {
    TicksAddUp(w, actions);
    DeferredTicks(u, v, n);
  }

  lemma DeferredTicks(u: World, v: World, n: nat)
    requires u.depth == 1 && u == v.(pended := n)
    ensures Visible(ResumeAll(u)) == Visible(DirectTicks(MovePending(v.(depth := 0)), n))
  {
    ResumeCatchesUp(u);
    MovingIsVisible(u.(depth := 0), v.(depth := 0));
    MovePendingCounts(u.(depth := 0));
    MovePendingCounts(v.(depth := 0));
    TicksAreVisible(MovePending(u.(depth := 0)), MovePending(v.(depth := 0)), u.pended);
  }

  lemma {:induction false} TicksAreVisible(u: World, v: World, n: nat)
    requires Visible(u) == Visible(v) && u.depth == 0 && v.depth == 0
    ensures Visible(DirectTicks(u, n)) == Visible(DirectTicks(v, n))
  {
    if n > 0 {
      TicksAreVisible(u, v, n - 1);
      TicksKeepDepth(u, n - 1);
      TicksKeepDepth(v, n - 1);
      TickIsVisible(DirectTicks(u, n - 1), DirectTicks(v, n - 1));
    }
  }

  lemma {:induction false} MovingIsVisible(u: World, v: World)
    requires Visible(u) == Visible(v)
    ensures Visible(MovePending(u)) == Visible(MovePending(v))
    decreases |u.pending|
  {
    if u.pending != [] {
      MovingIsVisible(MoveOne(u), MoveOne(v));
    }
  }

  /** Only the tick interrupt and (nested) suspensions and resumptions of the scheduler. */
  predicate OnlySuspends(a: Action) {
    a == DoTick || a == DoSuspendAll || a == DoResumeAll
  }

  /**
   * A suspension in which nothing else happens cannot be seen afterwards.  However
   * suspensions are nested, and however many ticks fall into them: the time, the
   * sleepers and the ready lists are those after the same ticks taken directly, up to
   * the ticks still pended, and none are pended once the scheduler is running again.
   */
  lemma {:induction false} SuspensionIsInvisible(w: World, actions: seq<Action>, u: World)
    requires Inv(w) && w.depth == 0 && u == Run(w, actions)
    requires forall i :: 0 <= i < |actions| ==> OnlySuspends(actions[i])
    ensures AfterTicks(w, u, TicksIn(actions))
    decreases |actions|
  {
    if actions != [] {
      var rest, a := actions[..|actions| - 1], actions[|actions| - 1];
      SuspensionIsInvisible(w, rest, Run(w, rest));
      OneMoreIsInvisible(w, Run(w, rest), TicksIn(rest), a);
    }
  }

  /** `u` is what `n` ticks make of `w`, apart from those that are pended. */
  ghost predicate AfterTicks(w: World, u: World, n: nat) {
    && u.pended <= n && Visible(u) == Visible(DirectTicks(w, n - u.pended))
    && u.pending == [] && (u.depth == 0 ==> u.pended == 0)
  }

  lemma OneMoreIsInvisible(w: World, u: World, n: nat, a: Action)
    requires w.depth == 0 && AfterTicks(w, u, n) && OnlySuspends(a)
    ensures AfterTicks(w, Stepped(u, a), n + Count(a == DoTick))
  {
    match a
    case DoTick => TickIsInvisible(w, u, n);
    case DoResumeAll =>
      if u.depth == 1 {
        SettlingIsInvisible(w, u, n);
      }
    case _ =>
  }

  lemma TickIsInvisible(w: World, u: World, n: nat)
    requires w.depth == 0 && AfterTicks(w, u, n)
    ensures AfterTicks(w, IncrementTick(u), n + 1)
  {
    TickCounts(u);
    if u.depth == 0 {
      TicksKeepDepth(w, n);
      TickIsVisible(u, DirectTicks(w, n));
    }
  }

  lemma SettlingIsInvisible(w: World, u: World, n: nat)
    requires w.depth == 0 && u.depth == 1 && AfterTicks(w, u, n)
    ensures AfterTicks(w, ResumeAll(u), n)
  {
    var v, k := u.(depth := 0), n - u.pended;
    ResumeCatchesUp(u);
    TicksKeepDepth(w, k);
    TicksAreVisible(v, DirectTicks(w, k), u.pended);
    ReplayCounts(v, u.pended);
    TicksAdd(w, k, u.pended);
  }

  // ---- selection ----------------------------------------------------------------------------------

  /** A switch picks a ready task that no ready task outranks. */
  lemma SwitchPicksHighest(w: World)
    requires Inv(w) && w.depth == 0
    ensures var u := Switch(w);
            IsReady(u, u.current) && forall t :: IsReady(u, t) ==> u.priority[t] <= u.priority[u.current]
  {
    IdleIsReady(w);
    var h := HighestFrom(w.ready, |w.ready| - 1);
    AdvanceKeeps(w, h);
    var u := Switch(w);
    assert u.current in u.ready[h].items;
    forall t | IsReady(u, t)
      ensures u.priority[t] <= h
    {
      assert w.ready[w.priority[t]].items != [];
    }
  }

  /** The tasks picked by `n` switches in a row. */
  function Picked(w: World, n: nat): seq<Task>
    decreases n
  {
    if n == 0 then [] else [Switch(w).current] + Picked(Switch(w), n - 1)
  }

  /** The highest priority at which a task is ready. */
  predicate Highest(w: World, h: nat) {
    h < |w.ready| && h == HighestFrom(w.ready, |w.ready| - 1) && w.ready[h].items != []
  }

  lemma SwitchAdvances(w: World, h: nat)
    requires w.depth == 0 && Highest(w, h)
    ensures var u := Switch(w);
            && Highest(u, h)
            && u.ready == w.ready[h := w.ready[h].Advance()] && u.depth == 0
            && u.current == u.ready[h].items[u.ready[h].index - 1]
  {
    SameHighest(w.ready, Switch(w).ready, |w.ready| - 1);
  }

  lemma {:induction false} PickedIsWalk(w: World, h: nat, n: nat)
    requires w.depth == 0 && Highest(w, h)
    ensures Picked(w, n) == w.ready[h].Walk(n)
    decreases n
  {
    if n > 0 {
      SwitchAdvances(w, h);
      PickedIsWalk(Switch(w), h, n - 1);
    }
  }

  lemma {:induction false} SameHighest(a: seq<ReadyList>, b: seq<ReadyList>, p: nat)
    requires |a| == |b| && p < |a|
    requires forall q :: 0 <= q < |a| ==> a[q].items == b[q].items
    ensures HighestFrom(a, p) == HighestFrom(b, p)
    decreases p
  {
    if a[p].items == [] && p > 0 {
      SameHighest(a, b, p - 1);
    }
  }

  /**
   * Equal shares: while the ready tasks do not change, as many switches as there
   * are tasks at the highest priority pick each of them exactly once.
   */
  lemma EqualShares(w: World)
    requires Inv(w) && w.depth == 0
    ensures var r := w.ready[HighestFrom(w.ready, |w.ready| - 1)];
            && Picked(w, |r.items|) == r.items[r.index..] + r.items[..r.index]
            && Distinct(Picked(w, |r.items|))
            && (forall t :: t in Picked(w, |r.items|) <==> t in r.items)
  {
    IdleIsReady(w);
    var h := HighestFrom(w.ready, |w.ready| - 1);
    var r := w.ready[h];
    PickedIsWalk(w, h, |r.items|);
    RoundRobin(r);
    RotationFacts(r.items, r.index);
  }
}
