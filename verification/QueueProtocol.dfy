/**
 * The sending, receiving and blocking protocol of one queue as a state machine.
 * Each step is one critical section of queue.c; interrupts may come between any
 * two of them, other tasks only while no task holds the queue locked (locking
 * happens with the scheduler suspended).
 *
 * The order of the waiting lists is left open: a blocking task may be inserted
 * anywhere, so what is proved holds whatever the priorities are.
 */
module QueueProtocol {
  import opened Rings

  type Task = nat

  datatype Position = Back | Front | Overwrite

  datatype Side = Receiving | Sending

  /** What the task that has locked the queue has done since. */
  datatype Locker =
    | Nobody
    // prvLockQueue done; if `observed`, the queue was seen empty (or full) and the task is bound to block.
    | Locked(task: Task, side: Side, observed: bool)
    // The first half of prvUnlockQueue is done.
    | HalfUnlocked

  datatype State<Item> = State(
    tasks: set<Task>,
    length: nat, itemSize: nat,
    items: seq<Item>,
    receivers: seq<Task>,          // xTasksWaitingToReceive, head first
    senders: seq<Task>,            // xTasksWaitingToSend
    txLock: int, rxLock: int,
    locker: Locker,
    // Tasks taken off a waiting list by a queue event that have not looked at the queue since.
    wokenReceivers: set<Task>, wokenSenders: set<Task>,
    // Items posted and removed by interrupts since the queue was locked.
    posts: nat, removals: nat)

  const UNLOCKED: int := -1
  const LOCKED_UNMODIFIED: int := 0
  const INT8_MAX: nat := 127

  datatype Action<Item> =
    | TaskSend(task: Task, item: Item, position: Position)
    | TaskReceive(task: Task)
    | TaskPeek(task: Task)
    | IsrSend(item: Item, position: Position)
    | IsrReceive
    | Lock(task: Task, side: Side)
    | Observe
    | Place(at: nat)
    | UnlockTx
    | UnlockRx
    | TimeOut(task: Task)

  // ---- the operations ---------------------------------------------------------------

  predicate CanSend<Item>(length: nat, items: seq<Item>, position: Position) {
    |items| < length || position == Overwrite
  }

  /**
   * Only a queue of length one may be overwritten.  Overwriting a full queue of
   * items of size zero is left out of the machine: see CountAfterSend.
   */
  predicate CanOverwrite<Item>(s: State<Item>) {
    s.length == 1 && (s.itemSize > 0 || s.items == [])
  }

  /**
   * uxMessagesWaiting after prvCopyDataToQueue: an overwrite of a used slot does not
   * count, unless items have no size.
   */
  function CountAfterSend(itemSize: nat, n: nat, position: Position): nat {
    if itemSize > 0 && position == Overwrite && n > 0 then n else n + 1
  }

  /** The count stays within the length exactly unless a full queue of empty items is overwritten. */
  lemma CountFitsIff(length: nat, itemSize: nat, n: nat, position: Position)
    requires n <= length && (n < length || position == Overwrite) && (position == Overwrite ==> length == 1)
    ensures CountAfterSend(itemSize, n, position) <= length
            <==> !(itemSize == 0 && position == Overwrite && n == length)
  {
  }

  /** The items after a send that goes through. */
  function Sent<Item>(items: seq<Item>, item: Item, position: Position): seq<Item> {
    match position
    case Back => items + [item]
    case Front => [item] + items
    case Overwrite => [item] + if items == [] then [] else items[1..]
  }

  /** xTaskRemoveFromEventList on the receivers, if there are any. */
  function WakeReceiver<Item>(s: State<Item>): State<Item> {
    if s.receivers == [] then s
    else s.(receivers := s.receivers[1..], wokenReceivers := s.wokenReceivers + {s.receivers[0]})
  }

  function WakeSender<Item>(s: State<Item>): State<Item> {
    if s.senders == [] then s
    else s.(senders := s.senders[1..], wokenSenders := s.wokenSenders + {s.senders[0]})
  }

  /** The critical section of xQueueGenericSend. */
  function SendByTask<Item>(s: State<Item>, task: Task, item: Item, position: Position): State<Item> {
    var looked := s.(wokenSenders := s.wokenSenders - {task});
    if CanSend(s.length, s.items, position)
    then WakeReceiver(looked.(items := Sent(s.items, item, position)))
    else looked
  }

  /** The critical section of xQueueReceive and xQueueSemaphoreTake. */
  function ReceiveByTask<Item>(s: State<Item>, task: Task): State<Item> {
    var looked := s.(wokenReceivers := s.wokenReceivers - {task});
    if s.items != [] then WakeSender(looked.(items := s.items[1..])) else looked
  }

  /** The critical section of xQueuePeek: the item stays, so another receiver may want it. */
  function PeekByTask<Item>(s: State<Item>, task: Task): State<Item> {
    var looked := s.(wokenReceivers := s.wokenReceivers - {task});
    if s.items != [] then WakeReceiver(looked) else looked
  }

  /** prvIncrementQueueTxLock and prvIncrementQueueRxLock: capped at the number of tasks. */
  function Incremented(lock: int, tasks: nat): int {
    if lock < tasks then lock + 1 else lock
  }

  /** xQueueGenericSendFromISR and xQueueGiveFromISR. */
  function SendByIsr<Item>(s: State<Item>, item: Item, position: Position): State<Item> {
    if !CanSend(s.length, s.items, position) then s
    else
      var t := s.(items := Sent(s.items, item, position));
      if s.txLock == UNLOCKED then WakeReceiver(t)
      else t.(txLock := Incremented(s.txLock, |s.tasks|), posts := s.posts + 1)
  }

  /** xQueueReceiveFromISR. */
  function ReceiveByIsr<Item>(s: State<Item>): State<Item> {
    if s.items == [] then s
    else
      var t := s.(items := s.items[1..]);
      if s.rxLock == UNLOCKED then WakeSender(t)
      else t.(rxLock := Incremented(s.rxLock, |s.tasks|), removals := s.removals + 1)
  }

  function LockQueue<Item>(s: State<Item>, task: Task, side: Side): State<Item> {
    s.(locker := Locked(task, side, false),
       txLock := if s.txLock == UNLOCKED then LOCKED_UNMODIFIED else s.txLock,
       rxLock := if s.rxLock == UNLOCKED then LOCKED_UNMODIFIED else s.rxLock,
       posts := 0, removals := 0)
  }

  function Min(a: nat, b: nat): nat {
    if a <= b then a else b
  }

  /** The first half of prvUnlockQueue wakes one receiver for each recorded post, as long as there are any. */
  function UnlockTransmit<Item>(s: State<Item>): State<Item> {
    var n := Min(if s.txLock > 0 then s.txLock else 0, |s.receivers|);
    s.(receivers := s.receivers[n..], wokenReceivers := s.wokenReceivers + Elements(s.receivers[..n]),
       txLock := UNLOCKED, locker := HalfUnlocked)
  }

  /** The second half does the same for removals and senders. */
  function UnlockReceive<Item>(s: State<Item>): State<Item> {
    var n := Min(if s.rxLock > 0 then s.rxLock else 0, |s.senders|);
    s.(senders := s.senders[n..], wokenSenders := s.wokenSenders + Elements(s.senders[..n]),
       rxLock := UNLOCKED, locker := Nobody)
  }

  function InsertAt<T>(s: seq<T>, k: nat, x: T): seq<T> {
    if k <= |s| then s[..k] + [x] + s[k..] else s + [x]
  }

  // ---- the machine --------------------------------------------------------------------

  /** A task runs its own code: it exists and is on no waiting list of this queue. */
  predicate Runs<Item>(s: State<Item>, task: Task) {
    task in s.tasks && task !in s.receivers && task !in s.senders
  }

  /**
   * When a step can happen.  A task woken as a receiver looks at the queue again
   * before it does anything else with it, and a task locks the queue only after
   * having looked.
   */
  predicate Enabled<Item>(s: State<Item>, a: Action<Item>) {
    match a
    case TaskSend(task, _, position) =>
      && s.locker == Nobody && Runs(s, task) && task !in s.wokenReceivers
      && (position == Overwrite ==> CanOverwrite(s))
    case TaskReceive(task) => s.locker == Nobody && Runs(s, task) && task !in s.wokenSenders
    case TaskPeek(task) => s.locker == Nobody && Runs(s, task) && task !in s.wokenSenders
    case IsrSend(_, position) => position == Overwrite ==> CanOverwrite(s)
    case IsrReceive => true
    case Lock(task, _) =>
      s.locker == Nobody && Runs(s, task) && task !in s.wokenReceivers && task !in s.wokenSenders
    case Observe =>
      s.locker.Locked? && !s.locker.observed && Runs(s, s.locker.task)
      && if s.locker.side == Receiving then s.items == [] else |s.items| == s.length
    case Place(_) => s.locker.Locked? && s.locker.observed
    case UnlockTx => s.locker.Locked? && !s.locker.observed
    case UnlockRx => s.locker == HalfUnlocked
    case TimeOut(task) => s.locker == Nobody
  }

  function Exec<Item>(s: State<Item>, a: Action<Item>): State<Item>
    requires Enabled(s, a)
  {
    match a
    case TaskSend(task, item, position) => SendByTask(s, task, item, position)
    case TaskReceive(task) => ReceiveByTask(s, task)
    case TaskPeek(task) => PeekByTask(s, task)
    case IsrSend(item, position) => SendByIsr(s, item, position)
    case IsrReceive => ReceiveByIsr(s)
    case Lock(task, side) => LockQueue(s, task, side)
    case Observe => s.(locker := s.locker.(observed := true))
    case Place(at) =>
      var t := s.(locker := s.locker.(observed := false));
      if s.locker.side == Receiving then t.(receivers := InsertAt(s.receivers, at, s.locker.task))
      else t.(senders := InsertAt(s.senders, at, s.locker.task))
    case UnlockTx => UnlockTransmit(s)
    case UnlockRx => UnlockReceive(s)
    case TimeOut(task) =>
      s.(receivers := Removed(s.receivers, task), senders := Removed(s.senders, task))
  }

  // ---- the invariant ------------------------------------------------------------------

  /** Every task is in one place only. */
  ghost predicate Places<Item>(s: State<Item>) {
    && Distinct(s.receivers) && Distinct(s.senders)
    && (forall t :: t in s.receivers ==> t in s.tasks && t !in s.wokenReceivers)
    && (forall t :: t in s.senders ==> t in s.tasks && t !in s.wokenSenders)
    && (forall t :: t in s.wokenReceivers ==> t in s.tasks && t !in s.wokenSenders && t !in s.senders)
    && (forall t :: t in s.wokenSenders ==> t in s.tasks && t !in s.receivers)
    && (forall t :: t in s.receivers ==> t !in s.senders)
    && (s.locker.Locked? ==>
          && (s.locker.observed ==> Runs(s, s.locker.task))
          && (Runs(s, s.locker.task) ==> s.locker.task !in s.wokenReceivers + s.wokenSenders))
  }

  /** The lock counts record what interrupts did, up to the cap, and fit in an int8_t. */
  ghost predicate Locks<Item>(s: State<Item>) {
    && |s.tasks| <= INT8_MAX
    && (s.locker.Locked? ==> s.txLock == Min(s.posts, |s.tasks|))
    && (!s.locker.Locked? ==> s.txLock == UNLOCKED)
    && (s.locker != Nobody ==> s.rxLock == Min(s.removals, |s.tasks|))
    && (s.locker == Nobody ==> s.rxLock == UNLOCKED)
  }

  /**
   * A waiting receiver leaves no item without a woken task, or a recorded post,
   * to account for it; a lock count at its cap will wake everybody.
   */
  ghost predicate ReceiversAccounted<Item>(s: State<Item>) {
    if s.txLock == UNLOCKED then
      s.receivers != [] ==> |s.items| <= |s.wokenReceivers|
    else
      s.receivers != [] || (s.locker.Locked? && s.locker.observed && s.locker.side == Receiving) ==>
        |s.items| <= |s.wokenReceivers| + s.txLock || s.txLock >= |s.tasks|
  }

  ghost predicate SendersAccounted<Item>(s: State<Item>) {
    if s.rxLock == UNLOCKED then
      s.senders != [] ==> s.length - |s.items| <= |s.wokenSenders|
    else
      s.senders != [] || (s.locker.Locked? && s.locker.observed && s.locker.side == Sending) ==>
        s.length - |s.items| <= |s.wokenSenders| + s.rxLock || s.rxLock >= |s.tasks|
  }

  ghost predicate Inv<Item>(s: State<Item>) {
    && |s.items| <= s.length
    && Places(s) && Locks(s)
    && ReceiversAccounted(s) && SendersAccounted(s)
  }

  ghost function Init<Item>(tasks: set<Task>, length: nat, itemSize: nat, items: seq<Item>): (s: State<Item>)
    requires |tasks| <= INT8_MAX && |items| <= length
    ensures Inv(s)
  {
    State(tasks, length, itemSize, items, [], [], UNLOCKED, UNLOCKED, Nobody, {}, {}, 0, 0)
  }

  // ---- preservation -------------------------------------------------------------------

  /** No more tasks wait than there are. */
  lemma WaitersAreTasks<Item>(s: State<Item>)
    requires Places(s)
    ensures |s.receivers| <= |s.tasks| && |s.senders| <= |s.tasks|
  {
    ElementsSize(s.receivers);
    ElementsSize(s.senders);
    SubsetSize(Elements(s.receivers), s.tasks);
    SubsetSize(Elements(s.senders), s.tasks);
  }

  lemma TaskSendKeepsInv<Item>(s: State<Item>, task: Task, item: Item, position: Position)
    requires Inv(s) && Enabled(s, TaskSend(task, item, position))
    ensures Inv(SendByTask(s, task, item, position))
  {
    assert |s.wokenSenders - {task}| >= |s.wokenSenders| - 1;
    var looked := s.(wokenSenders := s.wokenSenders - {task});
    assert Places(looked);
    if CanSend(s.length, s.items, position) {
      WakeReceiverFacts(looked.(items := Sent(s.items, item, position)));
    }
  }

  lemma TaskReceiveKeepsInv<Item>(s: State<Item>, task: Task)
    requires Inv(s) && Enabled(s, TaskReceive(task))
    ensures Inv(ReceiveByTask(s, task))
  {
    assert |s.wokenReceivers - {task}| >= |s.wokenReceivers| - 1;
    var looked := s.(wokenReceivers := s.wokenReceivers - {task});
    assert Places(looked);
    if s.items != [] {
      WakeSenderFacts(looked.(items := s.items[1..]));
    }
  }

  lemma TaskPeekKeepsInv<Item>(s: State<Item>, task: Task)
    requires Inv(s) && Enabled(s, TaskPeek(task))
    ensures Inv(PeekByTask(s, task))
  {
    assert |s.wokenReceivers - {task}| >= |s.wokenReceivers| - 1;
    var looked := s.(wokenReceivers := s.wokenReceivers - {task});
    assert Places(looked);
    WakeReceiverFacts(looked);
  }

  lemma WakeReceiverFacts<Item>(s: State<Item>)
    requires Places(s) && !s.locker.Locked?
    ensures var t := WakeReceiver(s);
            && Places(t)
            && (s.receivers != [] ==> |t.wokenReceivers| == |s.wokenReceivers| + 1)
  {
    var t := WakeReceiver(s);
    if s.receivers != [] {
      assert s.receivers[0] !in t.receivers;
    }
  }

  lemma WakeSenderFacts<Item>(s: State<Item>)
    requires Places(s) && !s.locker.Locked?
    ensures var t := WakeSender(s);
            && Places(t)
            && (s.senders != [] ==> |t.wokenSenders| == |s.wokenSenders| + 1)
  {
    var t := WakeSender(s);
    if s.senders != [] {
      assert s.senders[0] !in t.senders;
    }
  }

  lemma IsrSendKeepsInv<Item>(s: State<Item>, item: Item, position: Position)
    requires Inv(s) && Enabled(s, IsrSend(item, position))
    ensures Inv(SendByIsr(s, item, position))
  {
    if CanSend(s.length, s.items, position) && s.txLock == UNLOCKED {
      WakeReceiverFacts(s.(items := Sent(s.items, item, position)));
    }
  }

  lemma IsrReceiveKeepsInv<Item>(s: State<Item>)
    requires Inv(s)
    ensures Inv(ReceiveByIsr(s))
  {
    if s.items != [] && s.rxLock == UNLOCKED {
      WakeSenderFacts(s.(items := s.items[1..]));
    }
  }

  lemma LockKeepsInv<Item>(s: State<Item>, a: Action<Item>)
    requires Inv(s) && Enabled(s, a) && (a.Lock? || a.Observe?)
    ensures Inv(Exec(s, a))
  {
  }

  lemma PlaceKeepsInv<Item>(s: State<Item>, at: nat)
    requires Inv(s) && Enabled(s, Place(at))
    ensures Inv(Exec(s, Place(at)))
  {
    var t := Exec(s, Place(at));
    var task := s.locker.task;
    InsertAtFacts(s.receivers, at, task);
    InsertAtFacts(s.senders, at, task);
    assert Places(t);
  }

  lemma InsertAtFacts<T>(s: seq<T>, k: nat, x: T)
    requires Distinct(s) && x !in s
    ensures var t := InsertAt(s, k, x);
            && Distinct(t) && t != []
            && (forall y :: y in t <==> y in s || y == x)
  {
  }

  lemma TimeOutKeepsInv<Item>(s: State<Item>, task: Task)
    requires Inv(s) && Enabled(s, TimeOut(task))
    ensures Inv(Exec(s, TimeOut(task)))
  {
    RemovedFacts(s.receivers, task);
    RemovedFacts(s.senders, task);
  }

  lemma UnlockTxKeepsInv<Item>(s: State<Item>)
    requires Inv(s) && Enabled(s, UnlockTx)
    ensures Inv(UnlockTransmit(s))
  {
    WaitersAreTasks(s);
    var n := Min(s.txLock, |s.receivers|);
    var woken := Elements(s.receivers[..n]);
    SplitFacts(s.receivers, n);
    assert woken !! s.wokenReceivers;
    assert Places(UnlockTransmit(s));
  }

  lemma UnlockRxKeepsInv<Item>(s: State<Item>)
    requires Inv(s) && Enabled(s, UnlockRx)
    ensures Inv(UnlockReceive(s))
  {
    WaitersAreTasks(s);
    var n := Min(s.rxLock, |s.senders|);
    var woken := Elements(s.senders[..n]);
    SplitFacts(s.senders, n);
    assert woken !! s.wokenSenders;
    assert Places(UnlockReceive(s));
  }

  /** The first `n` of a list of tasks and the rest share none. */
  lemma SplitFacts<T>(s: seq<T>, n: nat)
    requires Distinct(s) && n <= |s|
    ensures |Elements(s[..n])| == n && Distinct(s[n..])
    ensures forall x :: x in Elements(s[..n]) ==> x in s && x !in s[n..]
    ensures forall x :: x in s[n..] ==> x in s
  {
    ElementsSize(s[..n]);
  }

  lemma StepKeepsInv<Item>(s: State<Item>, a: Action<Item>)
    requires Inv(s) && Enabled(s, a)
    ensures Inv(Exec(s, a))
  {
    match a
    case TaskSend(task, item, position) => TaskSendKeepsInv(s, task, item, position);
    case TaskReceive(task) => TaskReceiveKeepsInv(s, task);
    case TaskPeek(task) => TaskPeekKeepsInv(s, task);
    case IsrSend(item, position) => IsrSendKeepsInv(s, item, position);
    case IsrReceive => IsrReceiveKeepsInv(s);
    case Lock(_, _) => LockKeepsInv(s, a);
    case Observe => LockKeepsInv(s, a);
    case Place(at) => PlaceKeepsInv(s, at);
    case UnlockTx => UnlockTxKeepsInv(s);
    case UnlockRx => UnlockRxKeepsInv(s);
    case TimeOut(task) => TimeOutKeepsInv(s, task);
  }

  /** A step that is not enabled is skipped. */
  function Stepped<Item>(s: State<Item>, a: Action<Item>): State<Item> {
    if Enabled(s, a) then Exec(s, a) else s
  }

  /** The state after a run in any interleaving. */
  function Run<Item>(s: State<Item>, actions: seq<Action<Item>>): State<Item>
    decreases actions
  {
    if actions == [] then s
    else Run(Stepped(s, actions[0]), actions[1..])
  }

  lemma {:induction false} RunKeepsInv<Item>(s: State<Item>, actions: seq<Action<Item>>)
    requires Inv(s)
    ensures Inv(Run(s, actions))
    decreases actions
  {
    if actions != [] {
      if Enabled(s, actions[0]) {
        StepKeepsInv(s, actions[0]);
      }
      RunKeepsInv(Stepped(s, actions[0]), actions[1..]);
    }
  }

  /**
   * No wake-up is lost.  Whatever tasks and interrupts did: while the queue is not
   * locked and a receiver waits, there are no more items than receivers that have
   * been woken and have yet to look; so if an item is there, somebody is coming
   * for it.  The same holds for senders and free places.
   */
  lemma NoLostWakeup<Item>(tasks: set<Task>, length: nat, itemSize: nat, items: seq<Item>, actions: seq<Action<Item>>)
    requires |tasks| <= INT8_MAX && |items| <= length
    ensures var s := Run(Init(tasks, length, itemSize, items), actions);
            && (s.txLock == UNLOCKED && s.receivers != [] ==> |s.items| <= |s.wokenReceivers|)
            && (s.rxLock == UNLOCKED && s.senders != [] ==> s.length - |s.items| <= |s.wokenSenders|)
            && (s.txLock == UNLOCKED && s.receivers != [] && s.items != [] ==> s.wokenReceivers != {})
  {
    RunKeepsInv(Init(tasks, length, itemSize, items), actions);
  }

  /**
   * Unlocking wakes as many receivers as there were posts while the queue was
   * locked, or all of them if there were fewer, although the count is capped; the
   * ones woken are those at the head of the list.
   */
  lemma UnlockWakesForEveryPost<Item>(s: State<Item>)
    requires Inv(s) && s.locker.Locked?
    ensures var t := UnlockTransmit(s);
            var n := Min(s.posts, |s.receivers|);
            && t.receivers == s.receivers[n..]
            && t.wokenReceivers == s.wokenReceivers + Elements(s.receivers[..n])
            && |t.wokenReceivers| == |s.wokenReceivers| + n
    ensures s.txLock <= INT8_MAX
  {
    WaitersAreTasks(s);
    var n := Min(s.posts, |s.receivers|);
    SplitFacts(s.receivers, n);
    assert Elements(s.receivers[..n]) !! s.wokenReceivers;
  }

  /** The second half of unlocking does the same for removals and waiting senders. */
  lemma UnlockWakesForEveryRemoval<Item>(s: State<Item>)
    requires Inv(s) && s.locker == HalfUnlocked
    ensures var t := UnlockReceive(s);
            var n := Min(s.removals, |s.senders|);
            && t.senders == s.senders[n..]
            && t.wokenSenders == s.wokenSenders + Elements(s.senders[..n])
            && |t.wokenSenders| == |s.wokenSenders| + n
    ensures s.rxLock <= INT8_MAX
  {
    WaitersAreTasks(s);
    var n := Min(s.removals, |s.senders|);
    SplitFacts(s.senders, n);
    assert Elements(s.senders[..n]) !! s.wokenSenders;
  }

  // ---- order of delivery ------------------------------------------------------------------

  /** The item a step puts into the queue, and the item it hands out, if any. */
  function Accepted<Item>(s: State<Item>, a: Action<Item>): seq<Item> {
    if Enabled(s, a) && (a.TaskSend? || a.IsrSend?) && CanSend(s.length, s.items, a.position) then [a.item] else []
  }

  function Delivered<Item>(s: State<Item>, a: Action<Item>): seq<Item> {
    if Enabled(s, a) && (a.TaskReceive? || a.IsrReceive?) && s.items != [] then [s.items[0]] else []
  }

  function AllAccepted<Item>(s: State<Item>, actions: seq<Action<Item>>): seq<Item>
    decreases actions
  {
    if actions == [] then []
    else Accepted(s, actions[0]) + AllAccepted(Stepped(s, actions[0]), actions[1..])
  }

  function AllDelivered<Item>(s: State<Item>, actions: seq<Action<Item>>): seq<Item>
    decreases actions
  {
    if actions == [] then []
    else Delivered(s, actions[0]) + AllDelivered(Stepped(s, actions[0]), actions[1..])
  }

  lemma StepConserves<Item>(s: State<Item>, a: Action<Item>)
    requires a.TaskSend? || a.IsrSend? ==> a.position == Back
    ensures s.items + Accepted(s, a) == Delivered(s, a) + Stepped(s, a).items
  {
  }

  lemma Chain<T>(before: seq<T>, accepted: seq<T>, more: seq<T>,
                 delivered: seq<T>, between: seq<T>, others: seq<T>, after: seq<T>)
    requires before + accepted == delivered + between && between + more == others + after
    ensures before + (accepted + more) == (delivered + others) + after
  {
    assert before + (accepted + more) == (before + accepted) + more;
    assert (delivered + others) + after == delivered + (others + after);
    assert delivered + (between + more) == (delivered + between) + more;
  }

  /**
   * With every send to the back, items come out in the order they went in, none
   * lost and none twice: what was there and what was accepted is what was
   * delivered and what is left.
   */
  lemma {:induction false} FirstInFirstOut<Item>(s: State<Item>, actions: seq<Action<Item>>)
    requires forall a :: a in actions && (a.TaskSend? || a.IsrSend?) ==> a.position == Back
    ensures s.items + AllAccepted(s, actions) == AllDelivered(s, actions) + Run(s, actions).items
    decreases actions
  {
    if actions != [] {
      var a, rest := actions[0], actions[1..];
      var t := Stepped(s, a);
      StepConserves(s, a);
      FirstInFirstOut(t, rest);
      Chain(s.items, Accepted(s, a), AllAccepted(t, rest),
            Delivered(s, a), t.items, AllDelivered(t, rest), Run(t, rest).items);
    }
  }

  // ---- xQueueGenericReset -----------------------------------------------------------------

  /** Resetting a queue in use empties it and wakes one sender only. */
  function Reset<Item>(s: State<Item>): State<Item> {
    WakeSender(s.(items := []))
  }

  /**
   * After a reset of an unlocked queue with senders waiting, every free place is
   * accounted for if and only if at most one sender was waiting, or the queue is
   * no longer than the senders already woken and the one woken now.
   */
  lemma ResetAccountsForSendersIff<Item>(s: State<Item>)
    requires Inv(s) && s.locker == Nobody && s.senders != []
    ensures SendersAccounted(Reset(s)) <==> |s.senders| == 1 || s.length <= |s.wokenSenders| + 1
    ensures ReceiversAccounted(Reset(s))
  {
    WakeSenderFacts(s.(items := []));
  }

  /** Two senders wait on a full queue of two; a reset leaves the second asleep beside a free place. */
  lemma ResetStrandsASender()
    ensures var s := State({1, 2}, 2, 4, [7, 8], [], [1, 2], UNLOCKED, UNLOCKED, Nobody, {}, {}, 0, 0);
            && Inv(s)
            && Reset(s).senders == [2] && Reset(s).items == [] && |Reset(s).wokenSenders| == 1
            && !SendersAccounted(Reset(s))
  {
    var s := State({1, 2}, 2, 4, [7, 8], [], [1, 2], UNLOCKED, UNLOCKED, Nobody, {}, {}, 0, 0);
    assert Reset(s).wokenSenders == {1};
  }
}
