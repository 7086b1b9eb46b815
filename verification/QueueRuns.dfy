/**
 * The code of queue.c follows the runs of QueueProtocol: no wake-up is lost in it,
 * and it hands out items as the protocol does.
 */
module QueueRuns {
  import opened Queues
  import P = QueueProtocol

  type Action = P.Action<Item>

  /** A step that can happen, with an item of the queue's size. */
  predicate MayPerform(s: P.State<Item>, a: Action) {
    P.Enabled(s, a) && (a.TaskSend? || a.IsrSend? ==> |a.item| == s.itemSize)
  }

  predicate Possible(s: P.State<Item>, actions: seq<Action>)
    decreases actions
  {
    actions == [] || (MayPerform(s, actions[0]) && Possible(P.Stepped(s, actions[0]), actions[1..]))
  }

  /** What a task does: it sends, receives or looks. */
  method PerformByTask(q: Queue, a: Action) returns (handedOut: seq<Item>)
    requires q.Valid() && MayPerform(q.protocol, a)
    requires a.TaskSend? || a.TaskReceive? || a.TaskPeek?
    modifies q, q.storage
    ensures q.Valid() && q.protocol == P.Exec(old(q.protocol), a)
    ensures handedOut == P.Delivered(old(q.protocol), a)
  {
    handedOut := [];
    match a
    case TaskSend(task, item, position) =>
      var _ := q.Send(task, item, position);
    case TaskReceive(task) =>
      var received, item := q.Receive(task);
      if received {
        handedOut := [item];
      }
    case TaskPeek(task) =>
      var _, _ := q.Peek(task);
  }

  /** What an interrupt does, among `tasks` tasks. */
  method PerformByIsr(q: Queue, a: Action, tasks: nat) returns (handedOut: seq<Item>)
    requires q.Valid() && MayPerform(q.protocol, a) && tasks == |q.protocol.tasks|
    requires a.IsrSend? || a.IsrReceive?
    modifies q, q.storage
    ensures q.Valid() && q.protocol == P.Exec(old(q.protocol), a)
    ensures handedOut == P.Delivered(old(q.protocol), a)
  {
    handedOut := [];
    match a
    case IsrSend(item, position) =>
      var _ := q.SendFromISR(item, position, tasks);
    case IsrReceive =>
      var received, item := q.ReceiveFromISR(tasks);
      if received {
        handedOut := [item];
      }
  }

  /** The task that holds the queue locked, if one does, is `task`, and it means to block on `side`. */
  ghost predicate Holds(s: P.State<Item>, task: Task, side: P.Side) {
    s.locker.Locked? ==> s.locker.task == task && s.locker.side == side
  }

  /** What a task does to block, and the end of a time-out. */
  method PerformBlocking(q: Queue, a: Action, task: Task, side: P.Side)
    requires q.Valid() && MayPerform(q.protocol, a) && Holds(q.protocol, task, side)
    requires a.Lock? || a.Observe? || a.Place? || a.UnlockTx? || a.UnlockRx? || a.TimeOut?
    modifies q
    ensures q.Valid() && q.protocol == P.Exec(old(q.protocol), a)
  {
    match a
    case Lock(t, s) => q.Lock(t, s);
    case Observe => var _ := q.MustBlock(side);
    case Place(at) => q.PlaceOnEventList(task, side, at);
    case UnlockTx => q.UnlockTx();
    case UnlockRx => q.UnlockRx();
    case TimeOut(t) => q.TimeOut(t);
  }

  method Perform(q: Queue, a: Action, tasks: nat, task: Task, side: P.Side) returns (handedOut: seq<Item>)
    requires q.Valid() && MayPerform(q.protocol, a) && Holds(q.protocol, task, side) && tasks == |q.protocol.tasks|
    modifies q, q.storage
    ensures q.Valid() && q.protocol == P.Stepped(old(q.protocol), a)
    ensures handedOut == P.Delivered(old(q.protocol), a)
  {
    if a.TaskSend? || a.TaskReceive? || a.TaskPeek? {
      handedOut := PerformByTask(q, a);
    } else if a.IsrSend? || a.IsrReceive? {
      handedOut := PerformByIsr(q, a, tasks);
    } else {
      PerformBlocking(q, a, task, side);
      handedOut := [];
    }
  }

  lemma HoldsNext(s: P.State<Item>, a: Action, task: Task, side: P.Side)
    requires P.Enabled(s, a) && Holds(s, task, side)
    ensures P.Exec(s, a).tasks == s.tasks
    ensures if a.Lock? then Holds(P.Exec(s, a), a.task, a.side) else Holds(P.Exec(s, a), task, side)
  {
  }

  /** Any interleaving of what tasks and interrupts do, one step after the other. */
  method RunOn(q: Queue, actions: seq<Action>, tasks: nat, task: Task, side: P.Side) returns (handedOut: seq<Item>)
    requires q.Valid() && Possible(q.protocol, actions) && Holds(q.protocol, task, side) && tasks == |q.protocol.tasks|
    modifies q, q.storage
    ensures q.Valid() && q.protocol == P.Run(old(q.protocol), actions)
    ensures handedOut == P.AllDelivered(old(q.protocol), actions)
    decreases |actions|
  {
    handedOut := [];
    if actions != [] {
      var a := actions[0];
      HoldsNext(q.protocol, a, task, side);
      var first := Perform(q, a, tasks, task, side);
      var rest := RunOn(q, actions[1..], tasks, if a.Lock? then a.task else task, if a.Lock? then a.side else side);
      handedOut := first + rest;
    }
  }

  /**
   * A queue, from its creation, through any interleaving of what tasks and interrupts
   * do: it is in the state the protocol reaches, and has handed out the items the
   * protocol delivers, in that order.
   */
  method RunFromStart(length: nat, itemSize: nat, tasks: set<Task>, actions: seq<Action>)
    returns (q: Queue, handedOut: seq<Item>)
    requires length > 0 && |tasks| <= P.INT8_MAX
    requires Possible(P.Init(tasks, length, itemSize, []), actions)
    ensures q.Valid() && q.protocol == P.Run(P.Init(tasks, length, itemSize, []), actions)
    ensures handedOut == P.AllDelivered(P.Init(tasks, length, itemSize, []), actions)
  {
    q := new Queue(length, itemSize, tasks);
    handedOut := RunOn(q, actions, |tasks|, 0, P.Receiving);
  }
}
