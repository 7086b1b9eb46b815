/**
 * The inheritance functions of tasks.c on TCBs, and the mutex paths of queue.c on a
 * queue, changed in place; each is proved to do to its objects what MutexProtocol
 * says of their values.
 */
module Mutexes {
  import opened Ticks
  import opened Rings
  import opened Wrappers
  import P = MutexProtocol

  class Tcb {
    const id: P.Task
    var base: nat
    var priority: nat
    var held: nat
    var eventValue: Tick

    ghost function Value(): P.Tcb
      reads this
    {
      P.Tcb(base, priority, held, eventValue)
    }

    constructor (id: P.Task, priority: nat, maxPriorities: Tick)
      ensures this.id == id
      ensures Value() == P.Tcb(priority, priority, 0, P.Rank(maxPriorities, priority))
    {
      this.id := id;
      base, this.priority, held := priority, priority, 0;
      eventValue := P.Rank(maxPriorities, priority);
    }

    /** The event list item is ranked by priority `p`, unless its value is used for something else. */
    method Rerank(p: nat, maxPriorities: Tick)
      modifies this`eventValue
      ensures eventValue == P.Reranked(old(Value()), p, maxPriorities)
    {
      if eventValue < P.IN_USE {
        eventValue := P.Rank(maxPriorities, p);
      }
    }
  }

  /** xTaskPriorityInherit tells whether the holder now runs at a priority it owes to a waiter. */
  method PriorityInherit(holder: Tcb?, current: Tcb, maxPriorities: Tick) returns (inherited: bool)
    requires holder != null ==> holder.base <= holder.priority
    modifies holder
    ensures holder != null ==>
              && holder.Value() == P.Inherited(old(holder.Value()), old(current.priority), maxPriorities)
              && (inherited <==> holder.base < old(current.priority))
    ensures holder == null ==> !inherited
  {
    inherited := false;
    if holder != null {
      if holder.priority < current.priority {
        holder.Rerank(current.priority, maxPriorities);
        holder.priority := current.priority;
        inherited := true;
      } else if holder.base < current.priority {
        inherited := true;
      }
    }
  }

  /** xTaskPriorityDisinherit asks for a yield exactly when the priority drops. */
  method PriorityDisinherit(holder: Tcb?, maxPriorities: Tick) returns (yield_: bool)
    requires holder != null ==> holder.held > 0
    modifies holder
    ensures holder != null ==>
              && holder.Value() == P.Disinherited(old(holder.Value()), maxPriorities)
              && (yield_ <==> holder.priority != old(holder.priority))
    ensures holder == null ==> !yield_
  {
    yield_ := false;
    if holder != null {
      holder.held := holder.held - 1;
      if holder.priority != holder.base && holder.held == 0 {
        holder.priority := holder.base;
        holder.eventValue := P.Rank(maxPriorities, holder.priority);
        yield_ := true;
      }
    }
  }

  /** vTaskPriorityDisinheritAfterTimeout. */
  method PriorityDisinheritAfterTimeout(holder: Tcb?, highestWaiting: nat, maxPriorities: Tick)
    requires holder != null ==> holder.held > 0
    modifies holder
    ensures holder != null ==>
              holder.Value() == P.DisinheritedAfterTimeout(old(holder.Value()), highestWaiting, maxPriorities)
  {
    if holder != null {
      var p := if holder.base < highestWaiting then highestWaiting else holder.base;
      if holder.priority != p && holder.held == 1 {
        holder.priority := p;
        holder.Rerank(p, maxPriorities);
      }
    }
  }

  /** vTaskPrioritySet. */
  method PrioritySet(t: Tcb, p: nat, maxPriorities: Tick)
    modifies t
    ensures t.Value() == P.PrioritySet(old(t.Value()), p, maxPriorities)
  {
    if t.base != p {
      if t.base == t.priority || p > t.priority {
        t.priority := p;
      }
      t.base := p;
      t.Rerank(p, maxPriorities);
    }
  }

  function Ids(tcbs: seq<Tcb>): (ids: seq<P.Task>)
    ensures |ids| == |tcbs|
  {
    seq(|tcbs|, i requires 0 <= i < |tcbs| => tcbs[i].id)
  }

  function Ranks(tcbs: seq<Tcb>): (ranks: seq<Tick>)
    reads tcbs
    ensures |ranks| == |tcbs|
  {
    seq(|tcbs|, i requires 0 <= i < |tcbs| reads tcbs => tcbs[i].eventValue)
  }

  class Mutex {
    const recursive: bool
    const maxPriorities: Tick
    var count: nat
    var holder: Tcb?
    var depth: nat
    var waiters: seq<Tcb>
    ghost var woken: Option<P.Task>

    ghost function Value(): P.Sem
      reads this
    {
      P.Sem(recursive, count, if holder == null then None else Some(holder.id), depth, Ids(waiters), woken)
    }

    /** prvInitialiseMutex: created free. */
    constructor (recursive: bool, maxPriorities: Tick)
      ensures Value() == P.Sem(recursive, 1, None, 0, [], None)
      ensures this.maxPriorities == maxPriorities
    {
      this.recursive := recursive;
      this.maxPriorities := maxPriorities;
      count, holder, depth, waiters, woken := 1, null, 0, [], None;
    }

    /** xQueueSemaphoreTake, or xQueueTakeMutexRecursive by a task that does not hold it, at its critical section. */
    method TryTake(t: Tcb) returns (taken: bool)
      modifies this, t`held
      ensures taken <==> old(count) > 0
      ensures holder == (if taken then t else old(holder)) && waiters == old(waiters)
      ensures taken ==>
                && Value() == P.Taken(old(Value()), t.id)
                && t.Value() == old(t.Value()).(held := old(t.held) + 1)
      ensures !taken ==> Value() == old(Value()) && t.Value() == old(t.Value())
    {
      taken := count > 0;
      if taken {
        count := count - 1;
        t.held := t.held + 1;
        holder := t;
        if recursive {
          depth := depth + 1;
        }
      }
    }

    /** xQueueSemaphoreTake, when it finds the mutex held and goes to sleep. */
    method Block(t: Tcb) returns (inherited: bool)
      requires holder != null && holder.base <= holder.priority
      modifies this`waiters, holder
      ensures holder.Value() == P.Inherited(old(holder.Value()), old(t.priority), maxPriorities)
      ensures waiters == Inserted(old(waiters), t)
      ensures Value() == P.Queued(old(Value()), t.id, Ranks(old(waiters)), t.eventValue)
      ensures inherited <==> holder.base < old(t.priority)
    {
      inherited := PriorityInherit(holder, t, maxPriorities);
      InsertedIds(waiters, t);
      waiters := Inserted(waiters, t);
    }

    /** The end of a waiter's time-out takes it off the list it is in. */
    method TimeOut(t: Tcb)
      modifies this`waiters
      ensures waiters == Removed(old(waiters), t)
    {
      waiters := Removed(waiters, t);
    }

    /** xQueueGenericSend on a mutex: prvCopyDataToQueue disinherits, then the first waiter is woken. */
    method Give() returns (yield_: bool)
      requires holder != null && holder.held > 0
      modifies this, holder
      ensures Value() == P.Given(old(Value()))
      ensures holder == null && waiters == if old(waiters) == [] then [] else old(waiters[1..])
      ensures old(holder).Value() == P.Disinherited(old(holder.Value()), maxPriorities)
      ensures yield_ <==> old(holder).priority != old(holder.priority)
    {
      yield_ := PriorityDisinherit(holder, maxPriorities);
      holder := null;
      count := count + 1;
      if waiters != [] {
        woken := Some(waiters[0].id);
        assert Ids(waiters[1..]) == Ids(waiters)[1..];
        waiters := waiters[1..];
      } else {
        woken := None;
      }
    }

    /** xQueueGiveMutexRecursive: only the holder can give, and only its last give frees the mutex. */
    method GiveRecursive(t: Tcb) returns (passed: bool)
      requires recursive && (holder != null ==> holder.held > 0 && depth > 0)
      modifies this, t
      ensures passed <==> old(holder) == t
      ensures holder == null || (holder == old(holder) && waiters == old(waiters))
      ensures waiters == old(waiters) || (old(waiters) != [] && waiters == old(waiters[1..]))
      ensures !passed ==> Value() == old(Value()) && t.Value() == old(t.Value())
      ensures passed && old(depth) > 1 ==>
                Value() == old(Value()).(depth := old(depth) - 1) && t.Value() == old(t.Value())
      ensures passed && old(depth) == 1 ==>
                && Value() == P.Given(old(Value()).(depth := 0))
                && t.Value() == P.Disinherited(old(t.Value()), maxPriorities)
    {
      passed := holder == t;
      if passed {
        depth := depth - 1;
        if depth == 0 {
          var _ := Give();
        }
      }
    }

    /** xQueueTakeMutexRecursive by its holder. */
    method TakeAgain()
      modifies this`depth
      ensures Value() == old(Value()).(depth := old(depth) + 1)
    {
      depth := depth + 1;
    }

    /** prvGetDisinheritPriorityAfterTimeout. */
    method DisinheritPriorityAfterTimeout() returns (p: nat)
      requires forall t :: t in waiters ==> t.eventValue <= maxPriorities
      ensures p == if waiters == [] then 0 else maxPriorities - waiters[0].eventValue
    {
      if waiters != [] {
        assert waiters[0] in waiters;
        p := maxPriorities - waiters[0].eventValue;
      } else {
        p := 0;
      }
    }

    /** The end of xQueueSemaphoreTake for a task whose wait has timed out while the mutex is held. */
    method AfterTimeOut(inherited: bool)
      requires count == 0 <==> holder != null
      requires holder != null ==> holder.held > 0
      requires forall t :: t in waiters ==> t.eventValue <= maxPriorities
      modifies holder
      ensures holder != null && inherited ==>
                holder.Value() == P.DisinheritedAfterTimeout(old(holder.Value()),
                  if waiters == [] then 0 else maxPriorities - old(waiters[0].eventValue), maxPriorities)
      ensures holder != null && !inherited ==> holder.Value() == old(holder.Value())
    {
      if count == 0 && inherited {
        var highest := DisinheritPriorityAfterTimeout();
        PriorityDisinheritAfterTimeout(holder, highest, maxPriorities);
      }
    }
  }

  function Inserted(tcbs: seq<Tcb>, t: Tcb): seq<Tcb>
    reads tcbs, t
  {
    var k := InsertPosition(Ranks(tcbs), t.eventValue);
    tcbs[..k] + [t] + tcbs[k..]
  }

  lemma InsertedIds(tcbs: seq<Tcb>, t: Tcb)
    ensures var k := InsertPosition(Ranks(tcbs), t.eventValue);
            Ids(Inserted(tcbs, t)) == Ids(tcbs)[..k] + [t.id] + Ids(tcbs)[k..]
  {
  }
}
