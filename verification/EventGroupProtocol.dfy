/**
 * One event group as a state machine: its bits, the tasks that wait on it and the
 * word each of them keeps its request and later its result in, the value of its
 * event list item.
 *
 * A step is what runs with the scheduler suspended or in a critical section;
 * interrupts do not touch event groups.
 */
module EventGroupProtocol {
  import opened Rings

  type Task = nat

  /** A 32-bit word as the set of the positions of its ones: `|` is union, `&` intersection, `& ~` difference. */
  type Bits = set<nat>

  // 0x01000000, 0x02000000, 0x04000000 and 0xff000000.
  const CLEAR_EVENTS_ON_EXIT: Bits := {24}
  const UNBLOCKED_DUE_TO_BIT_SET: Bits := {25}
  const WAIT_FOR_ALL: Bits := {26}
  const CONTROL_BYTES: Bits := {24, 25, 26, 27, 28, 29, 30, 31}
  // taskEVENT_LIST_ITEM_VALUE_IN_USE, 0x80000000.
  const IN_USE: Bits := {31}

  /** The word that holds the number `n`, its lowest digit at position `i`. */
  function WordOf(n: nat, i: nat): Bits {
    if n == 0 then {} else (if n % 2 == 1 then {i} else {}) + WordOf(n / 2, i + 1)
  }

  function Power2(n: nat): nat {
    if n == 0 then 1 else 2 * Power2(n - 1)
  }

  datatype Request = Request(bits: Bits, clear: bool, all: bool) {
    predicate Valid() {
      bits !! CONTROL_BYTES && bits != {}
    }

    /** The control bits travel in the top byte of the word. */
    function Pack(): Bits {
      bits + (if clear then CLEAR_EVENTS_ON_EXIT else {}) + (if all then WAIT_FOR_ALL else {})
    }
  }

  function Unpack(word: Bits): Request {
    Request(word - CONTROL_BYTES, word * CLEAR_EVENTS_ON_EXIT != {}, word * WAIT_FOR_ALL != {})
  }

  /** prvTestWaitCondition. */
  predicate Met(now: Bits, r: Request) {
    if r.all then now * r.bits == r.bits else now * r.bits != {}
  }

  /** Where a task is: outside the group's calls, blocked in one, or taken off the list but not yet returned. */
  datatype Phase = Running | Waiting(request: Request) | Woken(request: Request)

  datatype Tcb = Tcb(eventValue: Bits, priority: nat, phase: Phase)

  datatype State = State(
    bits: Bits,
    waiting: seq<Task>,       // xTasksWaitingForBits
    tcbs: map<Task, Tcb>,
    maxPriorities: nat,
    deleted: bool)

  // ---- the operations -------------------------------------------------------------------

  /** Whether a waiting task's request is met, as read from its word. */
  predicate Wakes(tcbs: map<Task, Tcb>, now: Bits, t: Task) {
    t in tcbs && Met(now, Unpack(tcbs[t].eventValue))
  }

  /** The bits that a task which wakes wants cleared. */
  function ToClear(tcbs: map<Task, Tcb>, now: Bits, t: Task): Bits {
    if Wakes(tcbs, now, t) && Unpack(tcbs[t].eventValue).clear then Unpack(tcbs[t].eventValue).bits else {}
  }

  /** A task taken off the list holds `value` in its word. */
  function Unblocked(tcb: Tcb, value: Bits): Tcb {
    var phase := if tcb.phase.Waiting? then Woken(tcb.phase.request) else tcb.phase;
    Tcb(value + IN_USE, tcb.priority, phase)
  }

  /** The waiters that are not released, in order. */
  function Remaining(tcbs: map<Task, Tcb>, now: Bits, list: seq<Task>): seq<Task>
    decreases list
  {
    if list == [] then []
    else (if Wakes(tcbs, now, list[0]) then [] else [list[0]]) + Remaining(tcbs, now, list[1..])
  }

  /** The union of what the released waiters want cleared. */
  function Cleared(tcbs: map<Task, Tcb>, now: Bits, list: seq<Task>): Bits
    decreases list
  {
    if list == [] then {} else ToClear(tcbs, now, list[0]) + Cleared(tcbs, now, list[1..])
  }

  /** The tasks on the list whose requests are met hold the bits that met them. */
  function Released(tcbs: map<Task, Tcb>, now: Bits, list: seq<Task>): map<Task, Tcb> {
    map t | t in tcbs ::
      if t in list && Wakes(tcbs, now, t) then Unblocked(tcbs[t], now + UNBLOCKED_DUE_TO_BIT_SET) else tcbs[t]
  }

  /** xEventGroupSetBits: every waiter is judged by the same bits, and the clearing comes last. */
  function SetBits(s: State, set_: Bits): State {
    var now := s.bits + set_;
    s.(bits := now - Cleared(s.tcbs, now, s.waiting),
       waiting := Remaining(s.tcbs, now, s.waiting),
       tcbs := Released(s.tcbs, now, s.waiting))
  }

  /** xEventGroupClearBits. */
  function ClearBits(s: State, clear: Bits): State {
    s.(bits := s.bits - clear)
  }

  /** vTaskPlaceOnUnorderedEventList. */
  function Place(s: State, t: Task, r: Request): State
    requires t in s.tcbs
  {
    s.(waiting := s.waiting + [t],
       tcbs := s.tcbs[t := s.tcbs[t].(eventValue := r.Pack() + IN_USE, phase := Waiting(r))])
  }

  datatype Reply = Replied(value: Bits) | Blocks

  datatype Outcome = Outcome(state: State, reply: Reply)

  /** xEventGroupWaitBits up to where it may block. */
  function WaitBits(s: State, t: Task, r: Request, block: bool): Outcome
    requires t in s.tcbs
  {
    if Met(s.bits, r) then
      Outcome(if r.clear then ClearBits(s, r.bits) else s, Replied(s.bits))
    else if !block then
      Outcome(s, Replied(s.bits))
    else
      Outcome(Place(s, t, r), Blocks)
  }

  /** xEventGroupSync up to where it may block. */
  function Sync(s: State, t: Task, set_: Bits, mask: Bits, block: bool): Outcome
    requires t in s.tcbs
  {
    var after := SetBits(s, set_);
    if (s.bits + set_) * mask == mask then
      Outcome(ClearBits(after, mask), Replied(s.bits + set_))
    else if !block then
      Outcome(after, Replied(after.bits))
    else
      Outcome(Place(after, t, Request(mask, true, true)), Blocks)
  }

  /** The time-out of a waiter, or its suspension: off the list with its word as it was. */
  function TimeOut(s: State, t: Task): State {
    if t in s.tcbs && s.tcbs[t].phase.Waiting? then
      s.(waiting := Removed(s.waiting, t),
         tcbs := s.tcbs[t := s.tcbs[t].(phase := Woken(s.tcbs[t].phase.request))])
    else s
  }

  /** uxTaskResetEventItemValue. */
  function NormalValue(maxPriorities: nat, priority: nat): Bits {
    if priority <= maxPriorities then WordOf(maxPriorities - priority, 0) else {}
  }

  /** The rest of xEventGroupWaitBits and xEventGroupSync, once the task runs again. */
  function Return(s: State, t: Task): Outcome
    requires t in s.tcbs && s.tcbs[t].phase.Woken?
  {
    var tcb := s.tcbs[t];
    var normal := NormalValue(s.maxPriorities, tcb.priority);
    var after := s.(tcbs := s.tcbs[t := tcb.(eventValue := normal, phase := Running)]);
    var r := tcb.phase.request;
    if tcb.eventValue * UNBLOCKED_DUE_TO_BIT_SET != {} then
      Outcome(after, Replied(tcb.eventValue - CONTROL_BYTES))
    else
      Outcome(if Met(s.bits, r) && r.clear then ClearBits(after, r.bits) else after,
              Replied(s.bits - CONTROL_BYTES))
  }

  /** vTaskPrioritySet and xTaskPriorityInherit leave a word that is in use alone. */
  function SetPriority(s: State, t: Task, priority: nat): State
    requires t in s.tcbs
  {
    var tcb := s.tcbs[t];
    var normal := NormalValue(s.maxPriorities, priority);
    s.(tcbs := s.tcbs[t := tcb.(priority := priority,
                                eventValue := if tcb.eventValue * IN_USE == {} then normal else tcb.eventValue)])
  }

  /** vEventGroupDelete. */
  function Delete(s: State): State {
    s.(waiting := [], deleted := true,
       tcbs := map t | t in s.tcbs ::
                 if t in s.waiting then Unblocked(s.tcbs[t], UNBLOCKED_DUE_TO_BIT_SET) else s.tcbs[t])
  }

  // ---- the machine ------------------------------------------------------------------------

  datatype Action =
    | DoSetBits(bits: Bits)
    | DoClearBits(bits: Bits)
    | DoWaitBits(task: Task, request: Request, block: bool)
    | DoSync(task: Task, bits: Bits, mask: Bits, block: bool)
    | DoTimeOut(task: Task)
    | DoReturn(task: Task)
    | DoSetPriority(task: Task, priority: nat)
    | DoDelete

  predicate Runs(s: State, t: Task) {
    t in s.tcbs && s.tcbs[t].phase.Running?
  }

  /** Callers pass no control bits and wait for at least one bit; the group is not used once it is deleted. */
  predicate Enabled(s: State, a: Action) {
    match a
    case DoSetBits(bits) => !s.deleted && bits !! CONTROL_BYTES
    case DoClearBits(bits) => !s.deleted && bits !! CONTROL_BYTES
    case DoWaitBits(t, r, _) => !s.deleted && Runs(s, t) && r.Valid()
    case DoSync(t, bits, mask, _) =>
      !s.deleted && Runs(s, t) && bits !! CONTROL_BYTES && Request(mask, true, true).Valid()
    case DoTimeOut(_) => true
    case DoReturn(t) =>
      && t in s.tcbs && s.tcbs[t].phase.Woken?
      && (!s.deleted || s.tcbs[t].eventValue * UNBLOCKED_DUE_TO_BIT_SET != {})
    case DoSetPriority(t, priority) => t in s.tcbs && priority < s.maxPriorities
    case DoDelete => !s.deleted
  }

  function Exec(s: State, a: Action): State
    requires Enabled(s, a)
  {
    match a
    case DoSetBits(bits) => SetBits(s, bits)
    case DoClearBits(bits) => ClearBits(s, bits)
    case DoWaitBits(t, r, block) => WaitBits(s, t, r, block).state
    case DoSync(t, bits, mask, block) => Sync(s, t, bits, mask, block).state
    case DoTimeOut(t) => TimeOut(s, t)
    case DoReturn(t) => Return(s, t).state
    case DoSetPriority(t, priority) => SetPriority(s, t, priority)
    case DoDelete => Delete(s)
  }

  /**
   * A waiter's word holds its request, which the bits do not meet.  A task taken
   * off the list because of the bits holds bits that meet its request, whatever
   * has happened to the group or to its priority since.
   */
  ghost predicate Consistent(s: State, tcb: Tcb, listed: bool) {
    && tcb.priority < s.maxPriorities
    && match tcb.phase
       case Running => !listed && tcb.eventValue == NormalValue(s.maxPriorities, tcb.priority)
       case Waiting(r) => listed && r.Valid() && tcb.eventValue == r.Pack() + IN_USE && !Met(s.bits, r)
       case Woken(r) =>
         && !listed && r.Valid() && tcb.eventValue * IN_USE != {}
         && (tcb.eventValue * UNBLOCKED_DUE_TO_BIT_SET != {} ==>
               || Met(tcb.eventValue - CONTROL_BYTES, r)
               || (s.deleted && tcb.eventValue - CONTROL_BYTES == {}))
  }

  ghost predicate Inv(s: State) {
    && s.bits !! CONTROL_BYTES
    && 0 < s.maxPriorities < Power2(31)
    && Distinct(s.waiting)
    && (s.deleted ==> s.waiting == [])
    && (forall t :: t in s.waiting ==> t in s.tcbs)
    && (forall t :: t in s.tcbs ==> Consistent(s, s.tcbs[t], t in s.waiting))
  }

  // ---- bits -----------------------------------------------------------------------------

  lemma PackUnpack(r: Request)
    requires r.Valid()
    ensures var word := r.Pack() + IN_USE;
            Unpack(word) == r && word * UNBLOCKED_DUE_TO_BIT_SET == {} && word * IN_USE != {}
  {
  }

  /** What a released task reads back is the bits it was released for. */
  lemma ReleasedValue(now: Bits)
    requires now !! CONTROL_BYTES
    ensures var word := now + UNBLOCKED_DUE_TO_BIT_SET + IN_USE;
            word - CONTROL_BYTES == now && word * UNBLOCKED_DUE_TO_BIT_SET != {} && word * IN_USE != {}
  {
  }

  /** A task's normal word is not marked as in use. */
  lemma NormalNotInUse(s: State, priority: nat)
    requires 0 < s.maxPriorities < Power2(31) && priority < s.maxPriorities
    ensures NormalValue(s.maxPriorities, priority) * IN_USE == {}
  {
    WordIsShort(s.maxPriorities - priority, 0, 31);
  }

  lemma {:induction false} WordIsShort(n: nat, i: nat, digits: nat)
    requires n < Power2(digits)
    ensures forall k :: k in WordOf(n, i) ==> i <= k < i + digits
  {
    if n > 0 {
      WordIsShort(n / 2, i + 1, digits - 1);
    }
  }

  // ---- preservation -------------------------------------------------------------------------

  lemma {:induction false} RemainingFacts(tcbs: map<Task, Tcb>, now: Bits, list: seq<Task>)
    requires Distinct(list)
    ensures var rest := Remaining(tcbs, now, list);
            && Distinct(rest)
            && (forall t :: t in rest <==> t in list && !Wakes(tcbs, now, t))
    decreases list
  {
    if list != [] {
      RemainingFacts(tcbs, now, list[1..]);
      assert list[0] !in list[1..];
      assert list == [list[0]] + list[1..];
    }
  }

  lemma SetBitsKeepsInv(s: State, set_: Bits)
    requires Inv(s) && !s.deleted && set_ !! CONTROL_BYTES
    ensures Inv(SetBits(s, set_))
  {
    var now := s.bits + set_;
    var after := SetBits(s, set_);
    RemainingFacts(s.tcbs, now, s.waiting);
    forall t | t in after.tcbs
      ensures Consistent(after, after.tcbs[t], t in after.waiting)
    {
      SetBitsAt(s, set_, t);
    }
  }

  lemma SetBitsAt(s: State, set_: Bits, t: Task)
    requires Inv(s) && !s.deleted && set_ !! CONTROL_BYTES && t in s.tcbs
    ensures var after := SetBits(s, set_);
            Consistent(after, after.tcbs[t], t in after.waiting)
  {
    var now := s.bits + set_;
    RemainingFacts(s.tcbs, now, s.waiting);
    match s.tcbs[t].phase
    case Waiting(r) =>
      PackUnpack(r);
      ReleasedValue(now);
    case _ =>
  }

  lemma PlaceKeepsInv(s: State, t: Task, r: Request)
    requires Inv(s) && !s.deleted && Runs(s, t) && r.Valid() && !Met(s.bits, r)
    ensures Inv(Place(s, t, r))
  {
    assert forall u :: u in Place(s, t, r).waiting <==> u in s.waiting || u == t;
  }

  lemma ClearBitsKeepsInv(s: State, clear: Bits)
    requires Inv(s)
    ensures Inv(ClearBits(s, clear))
  {
  }

  lemma WaitBitsKeepsInv(s: State, t: Task, r: Request, block: bool)
    requires Inv(s) && Enabled(s, DoWaitBits(t, r, block))
    ensures Inv(WaitBits(s, t, r, block).state)
  {
    if Met(s.bits, r) {
      ClearBitsKeepsInv(s, r.bits);
    } else if block {
      PlaceKeepsInv(s, t, r);
    }
  }

  lemma SyncKeepsInv(s: State, t: Task, set_: Bits, mask: Bits, block: bool)
    requires Inv(s) && Enabled(s, DoSync(t, set_, mask, block))
    ensures Inv(Sync(s, t, set_, mask, block).state)
  {
    var after := SetBits(s, set_);
    SetBitsKeepsInv(s, set_);
    if (s.bits + set_) * mask == mask {
      ClearBitsKeepsInv(after, mask);
    } else if block {
      PlaceKeepsInv(after, t, Request(mask, true, true));
    }
  }

  lemma TimeOutKeepsInv(s: State, t: Task)
    requires Inv(s)
    ensures Inv(TimeOut(s, t))
  {
    RemovedFacts(s.waiting, t);
    if t in s.tcbs && s.tcbs[t].phase.Waiting? {
      PackUnpack(s.tcbs[t].phase.request);
    }
  }

  lemma ReturnKeepsInv(s: State, t: Task)
    requires Inv(s) && Enabled(s, DoReturn(t))
    ensures Inv(Return(s, t).state)
  {
    var tcb := s.tcbs[t];
    var normal := NormalValue(s.maxPriorities, tcb.priority);
    var after := s.(tcbs := s.tcbs[t := tcb.(eventValue := normal, phase := Running)]);
    assert Inv(after);
    ClearBitsKeepsInv(after, tcb.phase.request.bits);
  }

  lemma SetPriorityKeepsInv(s: State, t: Task, priority: nat)
    requires Inv(s) && Enabled(s, DoSetPriority(t, priority))
    ensures Inv(SetPriority(s, t, priority))
  {
    var tcb := s.tcbs[t];
    NormalNotInUse(s, tcb.priority);
    if tcb.phase.Waiting? {
      PackUnpack(tcb.phase.request);
    }
  }

  lemma DeleteKeepsInv(s: State)
    requires Inv(s)
    ensures Inv(Delete(s))
  {
  }

  lemma StepKeepsInv(s: State, a: Action)
    requires Inv(s) && Enabled(s, a)
    ensures Inv(Exec(s, a))
  {
    match a
    case DoSetBits(bits) => SetBitsKeepsInv(s, bits);
    case DoClearBits(bits) => ClearBitsKeepsInv(s, bits);
    case DoWaitBits(t, r, block) => WaitBitsKeepsInv(s, t, r, block);
    case DoSync(t, bits, mask, block) => SyncKeepsInv(s, t, bits, mask, block);
    case DoTimeOut(t) => TimeOutKeepsInv(s, t);
    case DoReturn(t) => ReturnKeepsInv(s, t);
    case DoSetPriority(t, priority) => SetPriorityKeepsInv(s, t, priority);
    case DoDelete => DeleteKeepsInv(s);
  }

  /** The state after a run; a step that is not enabled is skipped. */
  function Run(s: State, actions: seq<Action>): State
    decreases actions
  {
    if actions == [] then s
    else Run(if Enabled(s, actions[0]) then Exec(s, actions[0]) else s, actions[1..])
  }

  lemma {:induction false} RunKeepsInv(s: State, actions: seq<Action>)
    requires Inv(s)
    ensures Inv(Run(s, actions))
    decreases actions
  {
    if actions != [] {
      if Enabled(s, actions[0]) {
        StepKeepsInv(s, actions[0]);
        RunKeepsInv(Exec(s, actions[0]), actions[1..]);
      } else {
        RunKeepsInv(s, actions[1..]);
      }
    }
  }

  // ---- what the group promises ----------------------------------------------------------------

  /** A group created with no bits set, and tasks at their given priorities. */
  ghost function Created(priorities: map<Task, nat>, maxPriorities: nat): (s: State)
    requires 0 < maxPriorities < Power2(31)
    requires forall t :: t in priorities ==> priorities[t] < maxPriorities
    ensures Inv(s)
  {
    State({}, [],
          map t | t in priorities :: Tcb(WordOf(maxPriorities - priorities[t], 0), priorities[t], Running),
          maxPriorities, false)
  }

  /** A request for all bits is met when none is missing, one for any when one is there. */
  lemma MetIs(now: Bits, r: Request)
    ensures r.all ==> (Met(now, r) <==> forall b :: b in r.bits ==> b in now)
    ensures !r.all ==> (Met(now, r) <==> exists b :: b in r.bits && b in now)
  {
    if r.all {
      assert Met(now, r) ==> forall b :: b in r.bits ==> b in now * r.bits;
    } else {
      assert Met(now, r) ==> exists b :: b in now * r.bits;
      assert forall b :: b in r.bits && b in now ==> b in now * r.bits;
    }
  }

  /**
   * No waiter is stranded: in every reachable state a listed task that waits for all
   * of its bits lacks one, and one that waits for any has none.  And nobody is woken
   * for nothing: a task that was released by a bit being set returns all of the bits
   * it waited for, or one of them, whatever was cleared and however its priority
   * changed before it ran, unless the group was deleted.
   */
  lemma NoStrandedWaiter(priorities: map<Task, nat>, maxPriorities: nat, actions: seq<Action>)
    requires 0 < maxPriorities < Power2(31)
    requires forall t :: t in priorities ==> priorities[t] < maxPriorities
    ensures var s := Run(Created(priorities, maxPriorities), actions);
            && (forall t :: t in s.waiting ==>
                  t in s.tcbs && s.tcbs[t].phase.Waiting? &&
                  var r := s.tcbs[t].phase.request;
                  if r.all then exists b :: b in r.bits && b !in s.bits else forall b :: b in r.bits ==> b !in s.bits)
            && (forall t :: t in s.tcbs && s.tcbs[t].phase.Woken? && !s.deleted
                            && s.tcbs[t].eventValue * UNBLOCKED_DUE_TO_BIT_SET != {} ==>
                  var r, value := s.tcbs[t].phase.request, Return(s, t).reply.value;
                  if r.all then forall b :: b in r.bits ==> b in value else exists b :: b in r.bits && b in value)
  {
    var s := Run(Created(priorities, maxPriorities), actions);
    RunKeepsInv(Created(priorities, maxPriorities), actions);
    forall t | t in s.waiting
      ensures t in s.tcbs && s.tcbs[t].phase.Waiting? && !Met(s.bits, s.tcbs[t].phase.request)
    {
    }
    forall t | t in s.waiting
      ensures var r := s.tcbs[t].phase.request;
              if r.all then exists b :: b in r.bits && b !in s.bits else forall b :: b in r.bits ==> b !in s.bits
    {
      MetIs(s.bits, s.tcbs[t].phase.request);
    }
    forall t | t in s.tcbs && s.tcbs[t].phase.Woken? && !s.deleted
               && s.tcbs[t].eventValue * UNBLOCKED_DUE_TO_BIT_SET != {}
      ensures var r, value := s.tcbs[t].phase.request, Return(s, t).reply.value;
              if r.all then forall b :: b in r.bits ==> b in value else exists b :: b in r.bits && b in value
    {
      assert Consistent(s, s.tcbs[t], t in s.waiting);
      MetIs(Return(s, t).reply.value, s.tcbs[t].phase.request);
    }
  }

  /** Whether the bits there were and the bits set together give a task what it waits for. */
  ghost predicate Given(s: State, set_: Bits, r: Request) {
    if r.all then forall b :: b in r.bits ==> b in s.bits || b in set_
    else exists b :: b in r.bits && (b in s.bits || b in set_)
  }

  /**
   * A set releases exactly the waiters that the old bits and the new together give
   * all, or any, of what they wait for; and it clears a bit only if it belongs to a
   * request with clear-on-exit of one of those released.
   */
  lemma SetBitsReleases(s: State, set_: Bits)
    requires Inv(s) && !s.deleted
    ensures var after := SetBits(s, set_);
            && (forall t :: t in s.waiting ==> (t !in after.waiting <==> Given(s, set_, s.tcbs[t].phase.request)))
            && (forall t :: t in after.waiting ==> t in s.waiting)
            && (forall b :: b in after.bits <==>
                  && (b in s.bits || b in set_)
                  && !exists t :: && t in s.waiting && t !in after.waiting
                                  && s.tcbs[t].phase.request.clear && b in s.tcbs[t].phase.request.bits)
  {
    var now := s.bits + set_;
    RemainingFacts(s.tcbs, now, s.waiting);
    forall t | t in s.waiting
      ensures Unpack(s.tcbs[t].eventValue) == s.tcbs[t].phase.request
      ensures Met(now, s.tcbs[t].phase.request) <==> Given(s, set_, s.tcbs[t].phase.request)
    {
      PackUnpack(s.tcbs[t].phase.request);
      MetIs(now, s.tcbs[t].phase.request);
    }
    forall b
      ensures b in Cleared(s.tcbs, now, s.waiting) <==> exists t :: t in s.waiting && b in ToClear(s.tcbs, now, t)
    {
      ClearedIs(s.tcbs, now, s.waiting, b);
    }
  }

  lemma {:induction false} ClearedIs(tcbs: map<Task, Tcb>, now: Bits, list: seq<Task>, b: nat)
    ensures b in Cleared(tcbs, now, list) <==> exists t :: t in list && b in ToClear(tcbs, now, t)
    decreases list
  {
    if list != [] {
      ClearedIs(tcbs, now, list[1..], b);
      assert list == [list[0]] + list[1..];
    }
  }

  /** The order in which tasks wait makes no difference to what is released and what is cleared. */
  lemma OrderDoesNotMatter(s: State, other: seq<Task>, set_: Bits)
    requires Distinct(s.waiting) && Distinct(other)
    requires forall t :: t in s.waiting <==> t in other
    ensures var a := SetBits(s, set_);
            var b := SetBits(s.(waiting := other), set_);
            a.bits == b.bits && a.tcbs == b.tcbs && forall t :: t in a.waiting <==> t in b.waiting
  {
    var now := s.bits + set_;
    RemainingFacts(s.tcbs, now, s.waiting);
    RemainingFacts(s.tcbs, now, other);
    forall b
      ensures b in Cleared(s.tcbs, now, s.waiting) <==> b in Cleared(s.tcbs, now, other)
    {
      ClearedIs(s.tcbs, now, s.waiting, b);
      ClearedIs(s.tcbs, now, other, b);
    }
  }

  // ---- rendezvous -----------------------------------------------------------------------------

  /** What each task brings to the rendezvous. */
  type Brings = map<Task, Bits>

  /** The bits that have come together once the tasks in `order` have arrived. */
  function Gathered(bits: Bits, brings: Brings, order: seq<Task>): Bits {
    if order == [] then bits
    else
      var last := order[|order| - 1];
      Gathered(bits, brings, order[..|order| - 1]) + if last in brings then brings[last] else {}
  }

  /** The outcome of the call xEventGroupSync(brings[t], mask) of a task prepared to wait. */
  function Arrive(s: State, brings: Brings, t: Task, mask: Bits): Outcome {
    if t in s.tcbs && t in brings then Sync(s, t, brings[t], mask, true) else Outcome(s, Blocks)
  }

  /** The state after all in `order` have arrived. */
  function Arrived(s: State, brings: Brings, order: seq<Task>, mask: Bits): State {
    if order == [] then s
    else Arrive(Arrived(s, brings, order[..|order| - 1], mask), brings, order[|order| - 1], mask).state
  }

  /** A group nobody waits on, and distinct tasks free to call. */
  ghost predicate Ready(s: State, brings: Brings, order: seq<Task>, mask: Bits) {
    && s.waiting == [] && Request(mask, true, true).Valid() && s.bits !! CONTROL_BYTES
    && Distinct(order)
    && forall t :: t in order ==> Runs(s, t) && t in brings && brings[t] !! CONTROL_BYTES
  }

  /** Everybody in `order` waits, in that order, for the whole mask, and the rest is as it was in `s`. */
  ghost predicate AllWait(s: State, now: State, order: seq<Task>, mask: Bits) {
    var r := Request(mask, true, true);
    && now.waiting == order
    && now.tcbs.Keys == s.tcbs.Keys
    && (forall t :: t in order ==>
          t in now.tcbs && now.tcbs[t].phase == Waiting(r) && now.tcbs[t].eventValue == r.Pack() + IN_USE)
    && (forall t :: t in s.tcbs && t !in order ==> now.tcbs[t] == s.tcbs[t])
  }

  lemma {:induction false} NoneWake(tcbs: map<Task, Tcb>, now: Bits, list: seq<Task>)
    requires forall t :: t in list ==> !Wakes(tcbs, now, t)
    ensures Remaining(tcbs, now, list) == list && Cleared(tcbs, now, list) == {}
    decreases list
  {
    if list != [] {
      NoneWake(tcbs, now, list[1..]);
      assert list == [list[0]] + list[1..];
    }
  }

  lemma {:induction false} AllWake(tcbs: map<Task, Tcb>, now: Bits, list: seq<Task>, mask: Bits)
    requires forall t :: t in list ==> Wakes(tcbs, now, t) && ToClear(tcbs, now, t) == mask
    ensures Remaining(tcbs, now, list) == [] && Cleared(tcbs, now, list) <= mask
    decreases list
  {
    if list != [] {
      AllWake(tcbs, now, list[1..], mask);
    }
  }

  /** A set that does not complete the mask changes the bits only. */
  lemma NotYet(s: State, now: State, order: seq<Task>, mask: Bits, bits: Bits)
    requires AllWait(s, now, order, mask) && Request(mask, true, true).Valid()
    requires !(mask <= now.bits + bits)
    ensures SetBits(now, bits) == now.(bits := now.bits + bits)
  {
    PackUnpack(Request(mask, true, true));
    NoneWake(now.tcbs, now.bits + bits, now.waiting);
    var after := SetBits(now, bits);
    assert after.tcbs == now.tcbs;
    assert after.bits == now.bits + bits;
  }

  /** The set that completes the mask releases everybody with all bits. */
  lemma AllAtOnce(s: State, now: State, order: seq<Task>, mask: Bits, bits: Bits)
    requires AllWait(s, now, order, mask) && Request(mask, true, true).Valid()
    requires mask <= now.bits + bits
    ensures var after := SetBits(now, bits);
            && after.waiting == [] && after.bits - mask == now.bits + bits - mask
            && (forall t :: t in order ==>
                  && t in after.tcbs
                  && after.tcbs[t] == Unblocked(now.tcbs[t], now.bits + bits + UNBLOCKED_DUE_TO_BIT_SET))
  {
    PackUnpack(Request(mask, true, true));
    AllWake(now.tcbs, now.bits + bits, now.waiting, mask);
  }

  /** Until the mask is covered everybody waits, in order of arrival, and the bits add up. */
  lemma {:induction false} AllWaitUntilCovered(s: State, brings: Brings, order: seq<Task>, mask: Bits)
    requires Ready(s, brings, order, mask) && !(mask <= Gathered(s.bits, brings, order))
    ensures var now := Arrived(s, brings, order, mask);
            AllWait(s, now, order, mask) && now.bits == Gathered(s.bits, brings, order)
  {
    if order != [] {
      var rest, last := order[..|order| - 1], order[|order| - 1];
      assert order == rest + [last];
      AllWaitUntilCovered(s, brings, rest, mask);
      NotYet(s, Arrived(s, brings, rest, mask), rest, mask, brings[last]);
    }
  }

  /**
   * The rendezvous.  Tasks arrive in some order; without the last the mask is not
   * covered, with it it is.  Then before the last arrival all wait; the last call
   * returns at once and all others are released by it, each with every bit that has
   * come together, so with every bit of the mask; and the mask is cleared and nobody
   * waits, so the group can be used for the next rendezvous.
   */
  lemma Rendezvous(s: State, brings: Brings, order: seq<Task>, mask: Bits)
    requires Ready(s, brings, order, mask) && order != []
    requires !(mask <= Gathered(s.bits, brings, order[..|order| - 1]))
    requires mask <= Gathered(s.bits, brings, order)
    ensures var rest, last := order[..|order| - 1], order[|order| - 1];
            var before := Arrived(s, brings, rest, mask);
            var after := Arrived(s, brings, order, mask);
            var all := Gathered(s.bits, brings, order);
            && AllWait(s, before, rest, mask)
            && Arrive(before, brings, last, mask).reply == Replied(all)
            && Runs(after, last)
            && (forall t :: t in rest ==>
                  t in after.tcbs && after.tcbs[t].phase.Woken? && Return(after, t).reply == Replied(all))
            && after.waiting == [] && after.bits == all - mask
  {
    var rest, last := order[..|order| - 1], order[|order| - 1];
    assert order == rest + [last];
    var before := Arrived(s, brings, rest, mask);
    var all := Gathered(s.bits, brings, order);
    AllWaitUntilCovered(s, brings, rest, mask);
    AllAtOnce(s, before, rest, mask, brings[last]);
    GatheredIsClear(s.bits, brings, order);
    ReleasedValue(all);
  }

  lemma {:induction false} GatheredIsClear(bits: Bits, brings: Brings, order: seq<Task>)
    requires bits !! CONTROL_BYTES
    requires forall t :: t in order && t in brings ==> brings[t] !! CONTROL_BYTES
    ensures Gathered(bits, brings, order) !! CONTROL_BYTES
  {
    if order != [] {
      GatheredIsClear(bits, brings, order[..|order| - 1]);
    }
  }

  lemma {:induction false} GatheredIs(bits: Bits, brings: Brings, order: seq<Task>, b: nat)
    ensures b in Gathered(bits, brings, order)
            <==> b in bits || exists t :: t in order && t in brings && b in brings[t]
  {
    if order != [] {
      var rest, last := order[..|order| - 1], order[|order| - 1];
      GatheredIs(bits, brings, rest, b);
      assert order == rest + [last];
    }
  }

  /** Together the tasks cover the mask, and each brings a bit of it that was not set and no other brings. */
  ghost predicate AllNeeded(bits: Bits, brings: Brings, order: seq<Task>, mask: Bits, own: map<Task, nat>) {
    && (forall t :: t in order ==> t in brings)
    && mask <= Gathered(bits, brings, order)
    && (forall t :: t in order ==> t in own && own[t] in mask && own[t] !in bits)
    && (forall t, u :: t in order && u in order && t != u && t in own && u in brings ==> own[t] !in brings[u])
  }

  lemma NotCoveredBefore(bits: Bits, brings: Brings, order: seq<Task>, mask: Bits, own: map<Task, nat>, k: nat)
    requires AllNeeded(bits, brings, order, mask, own) && Distinct(order) && k < |order|
    ensures !(mask <= Gathered(bits, brings, order[..k]))
  {
    GatheredIs(bits, brings, order[..k], own[order[k]]);
    assert order[k] in order && order[k] !in order[..k];
  }

  /** In whatever order they come, none is released before the last has arrived, and then all are. */
  lemma RendezvousInAnyOrder(s: State, brings: Brings, order: seq<Task>, mask: Bits, own: map<Task, nat>)
    requires Ready(s, brings, order, mask) && order != []
    requires AllNeeded(s.bits, brings, order, mask, own)
    ensures forall k :: 0 <= k < |order| ==>
              AllWait(s, Arrived(s, brings, order[..k], mask), order[..k], mask)
    ensures var after := Arrived(s, brings, order, mask);
            && after.waiting == [] && after.bits !! mask
            && Runs(after, order[|order| - 1])
            && (forall t :: t in order[..|order| - 1] ==>
                  t in after.tcbs && after.tcbs[t].phase.Woken? && Return(after, t).reply.Replied?
                  && mask <= Return(after, t).reply.value)
  {
    forall k | 0 <= k < |order|
      ensures AllWait(s, Arrived(s, brings, order[..k], mask), order[..k], mask)
    {
      NotCoveredBefore(s.bits, brings, order, mask, own, k);
      AllWaitUntilCovered(s, brings, order[..k], mask);
    }
    NotCoveredBefore(s.bits, brings, order, mask, own, |order| - 1);
    Rendezvous(s, brings, order, mask);
  }
}
