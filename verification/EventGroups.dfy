/**
 * event_groups.c: the fields of an event group changed in place, each call up to
 * where it may block proved to be a step of EventGroupProtocol.
 */
module EventGroups {
  import opened Rings
  import P = EventGroupProtocol

  type Task = P.Task
  type Bits = P.Bits

  class EventGroup {
    var bits: Bits
    var waiting: seq<Task>
    // The TCBs of the tasks that use the group.
    var tcbs: map<Task, P.Tcb>
    const maxPriorities: nat
    ghost var deleted: bool

    ghost function Abs(): P.State
      reads this
    {
      P.State(bits, waiting, tcbs, maxPriorities, deleted)
    }

    constructor (tcbs: map<Task, P.Tcb>, maxPriorities: nat)
      ensures Abs() == P.State({}, [], tcbs, maxPriorities, false)
    {
      bits, waiting, deleted := {}, [], false;
      this.tcbs := tcbs;
      this.maxPriorities := maxPriorities;
    }

    /** vTaskRemoveFromUnorderedEventList for the item at position `i`. */
    method RemoveFromUnorderedEventList(i: nat, value: Bits)
      requires i < |waiting| && waiting[i] in tcbs
      modifies this`waiting, this`tcbs
      ensures waiting == old(waiting[..i] + waiting[i + 1..])
      ensures tcbs == old(tcbs[waiting[i] := P.Unblocked(tcbs[waiting[i]], value)])
    {
      tcbs := tcbs[waiting[i] := P.Unblocked(tcbs[waiting[i]], value)];
      waiting := waiting[..i] + waiting[i + 1..];
    }

    /** One turn of the loop in xEventGroupSetBits: the item at position `i` stays and is passed, or is taken off. */
    method TestWaiter(i: nat, clear: Bits, ghost list: seq<Task>, ghost before: map<Task, P.Tcb>)
      returns (next: nat, toClear: Bits)
      requires i < |waiting| && Walked(list, before, waiting, tcbs, bits)
      requires Ahead(list, before, waiting, i, bits, clear)
      modifies this`waiting, this`tcbs
      ensures Walked(list, before, waiting, tcbs, bits) && Ahead(list, before, waiting, next, bits, toClear)
      ensures |waiting| - next == old(|waiting|) - i - 1
    {
      next, toClear := i, clear;
      var r := P.Unpack(tcbs[waiting[i]].eventValue);
      if if r.all then r.bits * bits == r.bits else r.bits * bits != {} {
        TakeOff(list, before, waiting, i, tcbs, bits);
        StepOverReleased(list, before, waiting, i, bits, toClear);
        if r.clear {
          toClear := toClear + r.bits;
        }
        RemoveFromUnorderedEventList(i, bits + P.UNBLOCKED_DUE_TO_BIT_SET);
      } else {
        StepOverRemaining(list, before, waiting, i, bits, toClear);
        next := i + 1;
      }
    }

    /**
     * The loop of xEventGroupSetBits: the list is walked once, from head to end; an
     * item that matches is taken off it on the way, and the bits to clear are collected.
     */
    method ReleaseWaiters() returns (toClear: Bits)
      requires Distinct(waiting) && forall t :: t in waiting ==> t in tcbs
      modifies this`waiting, this`tcbs
      ensures waiting == P.Remaining(old(tcbs), bits, old(waiting))
      ensures tcbs == P.Released(old(tcbs), bits, old(waiting))
      ensures toClear == P.Cleared(old(tcbs), bits, old(waiting))
    {
      ghost var list, before := waiting, tcbs;
      toClear := {};
      var i: nat := 0;
      while i < |waiting|
        invariant Walked(list, before, waiting, tcbs, bits)
        invariant Ahead(list, before, waiting, i, bits, toClear)
        decreases |waiting| - i
      {
        i, toClear := TestWaiter(i, toClear, list, before);
      }
      WalkEnds(list, before, waiting, tcbs, bits, toClear);
    }

    /**
     * xEventGroupSetBits: bits are cleared only after every waiter has been judged, and
     * the bits returned are those that are left.
     */
    method SetBits(set_: Bits) returns (left: Bits)
      requires P.Inv(Abs()) && !deleted
      modifies this`bits, this`waiting, this`tcbs
      ensures Abs() == P.SetBits(old(Abs()), set_) && left == bits
    {
      bits := bits + set_;
      var toClear := ReleaseWaiters();
      bits := bits - toClear;
      left := bits;
    }

    /** xEventGroupClearBits returns the bits as they were. */
    method ClearBits(clear: Bits) returns (was: Bits)
      modifies this`bits
      ensures was == old(bits) && Abs() == P.ClearBits(old(Abs()), clear)
    {
      was := bits;
      bits := bits - clear;
    }

    /** vTaskPlaceOnUnorderedEventList. */
    method Place(t: Task, r: P.Request)
      requires t in tcbs
      modifies this`waiting, this`tcbs
      ensures Abs() == P.Place(old(Abs()), t, r)
    {
      tcbs := tcbs[t := tcbs[t].(eventValue := r.Pack() + P.IN_USE, phase := P.Waiting(r))];
      waiting := waiting + [t];
    }

    /** xEventGroupWaitBits up to where it may block; `ticks` is the block time. */
    method WaitBits(t: Task, r: P.Request, ticks: nat) returns (reply: P.Reply)
      requires t in tcbs
      modifies this
      ensures P.Outcome(Abs(), reply) == P.WaitBits(old(Abs()), t, r, ticks > 0)
    {
      reply := P.Replied(bits);
      if P.Met(bits, r) {
        if r.clear {
          bits := bits - r.bits;
        }
      } else if ticks > 0 {
        Place(t, r);
        reply := P.Blocks;
      }
    }

    /** xEventGroupSync up to where it may block. */
    method Sync(t: Task, set_: Bits, mask: Bits, ticks: nat) returns (reply: P.Reply)
      requires P.Inv(Abs()) && !deleted && t in tcbs
      modifies this
      ensures P.Outcome(Abs(), reply) == P.Sync(old(Abs()), t, set_, mask, ticks > 0)
    {
      var original := bits;
      var _ := SetBits(set_);
      if (original + set_) * mask == mask {
        reply := P.Replied(original + set_);
        bits := bits - mask;
      } else if ticks > 0 {
        Place(t, P.Request(mask, true, true));
        reply := P.Blocks;
      } else {
        reply := P.Replied(bits);
      }
    }

    /** The end of a waiter's time-out takes it off the list and leaves its word as it is. */
    method TimeOut(t: Task)
      modifies this`waiting, this`tcbs
      ensures Abs() == P.TimeOut(old(Abs()), t)
    {
      if t in tcbs && tcbs[t].phase.Waiting? {
        waiting := Removed(waiting, t);
        tcbs := tcbs[t := tcbs[t].(phase := P.Woken(tcbs[t].phase.request))];
      }
    }

    /** A change of a task's priority, which leaves a word that is in use alone. */
    method SetPriority(t: Task, priority: nat)
      requires t in tcbs
      modifies this`tcbs
      ensures Abs() == P.SetPriority(old(Abs()), t, priority)
    {
      var tcb := tcbs[t];
      if tcb.eventValue * P.IN_USE == {} {
        tcb := tcb.(eventValue := P.NormalValue(maxPriorities, priority));
      }
      tcbs := tcbs[t := tcb.(priority := priority)];
    }

    /** The rest of a call that blocked, once the task runs again. */
    method Return(t: Task) returns (value: Bits)
      requires t in tcbs && tcbs[t].phase.Woken?
      modifies this
      ensures P.Outcome(Abs(), P.Replied(value)) == P.Return(old(Abs()), t)
    {
      var r := tcbs[t].phase.request;
      value := tcbs[t].eventValue;
      tcbs := tcbs[t := tcbs[t].(eventValue := P.NormalValue(maxPriorities, tcbs[t].priority), phase := P.Running)];
      if value * P.UNBLOCKED_DUE_TO_BIT_SET == {} {
        value := bits;
        if P.Met(value, r) && r.clear {
          bits := bits - r.bits;
        }
      }
      value := value - P.CONTROL_BYTES;
    }

    /** vEventGroupDelete releases the tasks from the head of the list until none is left. */
    method Delete()
      requires P.Inv(Abs()) && !deleted
      modifies this`waiting, this`tcbs, this`deleted
      ensures Abs() == P.Delete(old(Abs()))
    {
      ghost var list, before := waiting, tcbs;
      while waiting != []
        invariant Distinct(waiting) && forall t :: t in waiting ==> t in list
        invariant tcbs.Keys == before.Keys
        invariant forall t :: t in before ==>
                    tcbs[t] == if t in list && t !in waiting then P.Unblocked(before[t], P.UNBLOCKED_DUE_TO_BIT_SET)
                               else before[t]
        decreases |waiting|
      {
        assert waiting == [waiting[0]] + waiting[1..];
        RemoveFromUnorderedEventList(0, P.UNBLOCKED_DUE_TO_BIT_SET);
      }
      deleted := true;
      assert tcbs == P.Delete(old(Abs())).tcbs;
    }
  }

  /** The walk over `list` has taken off it the tasks that are no longer in `waiting`, and no other has changed. */
  ghost predicate Walked(list: seq<Task>, before: map<Task, P.Tcb>,
                         waiting: seq<Task>, tcbs: map<Task, P.Tcb>, now: Bits)
  {
    && Distinct(waiting)
    && (forall t :: t in waiting ==> t in list)
    && (forall t :: t in list ==> t in before)
    && tcbs.Keys == before.Keys
    && (forall t :: t in before ==>
          tcbs[t] == if t in list && t !in waiting then P.Unblocked(before[t], now + P.UNBLOCKED_DUE_TO_BIT_SET)
                     else before[t])
  }

  /** It stands at position `i` of what is left: ahead are the tasks still to be judged. */
  ghost predicate Ahead(list: seq<Task>, before: map<Task, P.Tcb>,
                        waiting: seq<Task>, i: nat, now: Bits, toClear: Bits)
  {
    && i <= |waiting|
    && waiting[..i] + P.Remaining(before, now, waiting[i..]) == P.Remaining(before, now, list)
    && toClear + P.Cleared(before, now, waiting[i..]) == P.Cleared(before, now, list)
  }

  lemma TakeOff(list: seq<Task>, before: map<Task, P.Tcb>,
                waiting: seq<Task>, i: nat, tcbs: map<Task, P.Tcb>, now: Bits)
    requires Walked(list, before, waiting, tcbs, now) && i < |waiting|
    ensures Walked(list, before, waiting[..i] + waiting[i + 1..],
                   tcbs[waiting[i] := P.Unblocked(tcbs[waiting[i]], now + P.UNBLOCKED_DUE_TO_BIT_SET)], now)
  {
    var left := waiting[..i] + waiting[i + 1..];
    assert forall u :: u in left <==> u in waiting && u != waiting[i];
  }

  lemma StepOverReleased(list: seq<Task>, before: map<Task, P.Tcb>,
                         waiting: seq<Task>, i: nat, now: Bits, toClear: Bits)
    requires Ahead(list, before, waiting, i, now, toClear) && i < |waiting|
    requires P.Wakes(before, now, waiting[i])
    ensures Ahead(list, before, waiting[..i] + waiting[i + 1..], i, now,
                  toClear + P.ToClear(before, now, waiting[i]))
  {
    var left := waiting[..i] + waiting[i + 1..];
    assert left[..i] == waiting[..i] && left[i..] == waiting[i + 1..];
    assert waiting[i..][1..] == waiting[i + 1..];
  }

  lemma StepOverRemaining(list: seq<Task>, before: map<Task, P.Tcb>,
                          waiting: seq<Task>, i: nat, now: Bits, toClear: Bits)
    requires Ahead(list, before, waiting, i, now, toClear) && i < |waiting|
    requires !P.Wakes(before, now, waiting[i])
    ensures Ahead(list, before, waiting, i + 1, now, toClear)
  {
    assert waiting[i..][1..] == waiting[i + 1..];
    assert waiting[..i + 1] == waiting[..i] + [waiting[i]];
  }

  lemma WalkEnds(list: seq<Task>, before: map<Task, P.Tcb>,
                 waiting: seq<Task>, tcbs: map<Task, P.Tcb>, now: Bits, toClear: Bits)
    requires Walked(list, before, waiting, tcbs, now) && Distinct(list)
    requires Ahead(list, before, waiting, |waiting|, now, toClear)
    ensures waiting == P.Remaining(before, now, list) && toClear == P.Cleared(before, now, list)
    ensures tcbs == P.Released(before, now, list)
  {
    P.RemainingFacts(before, now, list);
    assert waiting[..|waiting|] == waiting;
  }
}
