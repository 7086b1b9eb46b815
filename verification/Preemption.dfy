/**
 * No interrupt, tick or resumption of the scheduler leaves a ready task of higher
 * priority than the current one without a switch asked for.
 */
module Preemption {
  import opened Ticks
  import opened Schedule
  import opened SchedulerCalls
  import opened ScheduleRuns

  /** A ready task has a higher priority than the current one. */
  ghost predicate Urgent(w: World) {
    exists t :: IsReady(w, t) && w.current in w.priority && w.priority[t] > w.priority[w.current]
  }

  /** Then a switch has been asked for. */
  ghost predicate Prompt(w: World) {
    Urgent(w) ==> w.yieldPending
  }

  /** One more task is ready, and a switch is asked for if it is urgent. */
  lemma ReadiedPromptly(w: World, u: World, t: Task)
    requires Prompt(w) && OnlyTouches(w, u, t) && u.priority == w.priority && t in w.priority && w.current in w.priority
    requires IsReady(u, t) && !IsReady(w, t) ==>
               (u.yieldPending <==> w.yieldPending || w.priority[t] > w.priority[w.current])
    requires w.yieldPending ==> u.yieldPending
    ensures Prompt(u)
  {
    if v :| IsReady(u, v) && u.current in u.priority && u.priority[v] > u.priority[u.current] {
      if v != t {
        assert Untouched(w, u, v);
      }
      assert IsReady(w, v) ==> Urgent(w);
    }
  }

  lemma EventIsPrompt(w: World, a: Action)
    requires Inv(w) && Prompt(w) && Enabled(w, a)
    requires a.DoUnblock? || a.DoUnblockUnordered? || a.DoResumeFromISR?
    ensures Prompt(Exec(w, a))
  {
    match a
    case DoUnblock(t) =>
      EventReadies(w, t);
      ReadiedPromptly(w, Exec(w, a), t);
    case DoUnblockUnordered(t) =>
      UnorderedEventReadies(w, t);
      ReadiedPromptly(w, Exec(w, a), t);
    case DoResumeFromISR(t) =>
      ResumeFromISRReadies(w, t);
      if Exec(w, a) != w {
        ReadiedPromptly(w, Exec(w, a), t);
      }
  }

  lemma SwitchIsPrompt(w: World)
    requires Inv(w) && Prompt(w)
    ensures Prompt(Switch(w))
  {
    if w.depth == 0 {
      SwitchPicksHighest(w);
    }
  }

  lemma {:induction false} PendingIsPrompt(w: World, u: World)
    requires Filed(w, {}) && Prompt(w) && u == MovePending(w)
    ensures Prompt(u)
    decreases |w.pending|
  {
    if w.pending != [] {
      PendingReadied(w);
      MoveOneFiles(w);
      ReadiedPromptly(w, MoveOne(w), w.pending[0]);
      PendingIsPrompt(MoveOne(w), u);
    }
  }

  /** A tick that wakes an urgent task asks for a switch, and so does one before which there was one. */
  lemma TickIsPrompt(w: World, u: World)
    requires Filed(w, {}) && w.depth == 0 && Prompt(w) && u == IncrementTick(w)
    ensures Urgent(u) ==> TickWantsSwitch(w)
  {
    TickAsksForSwitch(w, u);
    WakeUpToCounts(w, w.now + 1);
    if t :| IsReady(u, t) && u.current in u.priority && u.priority[t] > u.priority[u.current] {
      TickReadiesOnlyDue(w, u, t);
      if IsReady(w, t) {
        assert Urgent(w);
      } else {
        assert WakesHigher(w);
      }
    }
  }

  lemma TickReadiesOnlyDue(w: World, u: World, t: Task)
    requires Filed(w, {}) && w.depth == 0 && u == IncrementTick(w) && IsReady(u, t)
    ensures IsReady(w, t) || Due(w, t, w.now + 1)
  {
    var v := WakeUpTo(w, w.now + 1);
    WokenOrUntouched(w, w.now + 1, v, t);
    assert IsReady(u, t) <==> IsReady(v, t);
  }

  lemma {:induction false} ReplayIsPrompt(w: World, ticks: nat, u: World)
    requires Filed(w, {}) && w.depth == 0 && Prompt(w) && u == Replay(w, ticks)
    ensures Filed(u, {}) && u.depth == 0 && Prompt(u)
    decreases ticks
  {
    if ticks > 0 {
      var v := Replay(w, ticks - 1);
      ReplayIsPrompt(w, ticks - 1, v);
      ReplayedTickIsPrompt(v, u);
    }
  }

  lemma ReplayedTickIsPrompt(w: World, u: World)
    requires Filed(w, {}) && w.depth == 0 && Prompt(w) && u == ReplayOne(w)
    ensures Filed(u, {}) && u.depth == 0 && Prompt(u)
  {
    TickIsPrompt(w, IncrementTick(w));
    ReplayOneFiles(w);
    TickCounts(w);
    SameUrgency(IncrementTick(w), u);
  }

  lemma SameUrgency(w: World, u: World)
    requires u.ready == w.ready && u.priority == w.priority && u.current == w.current
    ensures Urgent(u) <==> Urgent(w)
  {
    assert forall t: Task :: IsReady(u, t) <==> IsReady(w, t);
  }

  lemma ResumeIsPrompt(w: World)
    requires Inv(w) && w.depth > 0 && Prompt(w)
    ensures Prompt(ResumeAll(w))
  {
    var u := w.(depth := w.depth - 1);
    DepthKeeps(w, u);
    SameUrgency(w, u);
    if u.depth == 0 {
      var v := MovePending(u);
      var x := Replay(v, w.pended);
      MovePendingFiles(u);
      PendingIsPrompt(u, v);
      ReplayIsPrompt(v, w.pended, x);
      SameUrgency(x, ResumeAll(w));
    }
  }

  /** The tick interrupt of a port: a switch follows the tick at once if it asks for one. */
  ghost function TickInterrupt(w: World): World {
    if w.depth == 0 && TickWantsSwitch(w) then Switch(IncrementTick(w)) else IncrementTick(w)
  }

  lemma TickInterruptIsPrompt(w: World)
    requires Inv(w) && Prompt(w)
    ensures Prompt(TickInterrupt(w))
  {
    var u := IncrementTick(w);
    TickKeepsInv(w);
    if w.depth > 0 {
      SameUrgency(w, u);
    } else {
      TickIsPrompt(w, u);
      TickCounts(w);
      if TickWantsSwitch(w) {
        SwitchPicksHighest(u);
      }
    }
  }

  /** Interrupts, ticks, switches and the suspension of the scheduler. */
  predicate FromOutside(a: Action) {
    || a.DoTick? || a.DoUnblock? || a.DoUnblockUnordered? || a.DoResumeFromISR?
    || a.DoSwitch? || a.DoSuspendAll? || a.DoResumeAll?
  }

  ghost function Happened(w: World, a: Action): World {
    if a == DoTick then TickInterrupt(w) else Stepped(w, a)
  }

  ghost function Happening(w: World, actions: seq<Action>): World {
    if actions == [] then w
    else Happened(Happening(w, actions[..|actions| - 1]), actions[|actions| - 1])
  }

  lemma HappenedIsPrompt(w: World, a: Action)
    requires Inv(w) && Prompt(w) && FromOutside(a)
    ensures Inv(Happened(w, a)) && Prompt(Happened(w, a))
  {
    if a == DoTick {
      TickKeepsInv(w);
      SwitchKeepsInv(IncrementTick(w));
      TickInterruptIsPrompt(w);
    } else if Enabled(w, a) {
      StepKeepsInv(w, a);
      if a == DoResumeAll {
        ResumeIsPrompt(w);
      } else if a == DoSwitch {
        SwitchIsPrompt(w);
      } else if a == DoSuspendAll {
        SameUrgency(w, Exec(w, a));
      } else {
        EventIsPrompt(w, a);
      }
    }
  }

  /**
   * Over any run of interrupts, ticks, switches and suspensions of the scheduler:
   * whenever a ready task has a higher priority than the current one, a switch has
   * been asked for.
   */
  lemma {:induction false} NoPreemptionMissed(w: World, actions: seq<Action>, u: World)
    requires Inv(w) && Prompt(w) && u == Happening(w, actions)
    requires forall i :: 0 <= i < |actions| ==> FromOutside(actions[i])
    ensures Inv(u) && (forall t :: IsReady(u, t) && u.priority[t] > u.priority[u.current] ==> u.yieldPending)
    decreases |actions|
  {
    if actions != [] {
      var rest := actions[..|actions| - 1];
      var v := Happening(w, rest);
      NoPreemptionMissed(w, rest, v);
      assert Prompt(v);
      HappenedIsPrompt(v, actions[|actions| - 1]);
    }
    assert Prompt(u);
  }
}
