/**
 * Where each send puts its item, which item a receive hands out and whom each of
 * them wakes; and the order of delivery over whole runs in which items are sent to
 * the back, to the front and over one another.
 */
module QueueOrder {
  import opened Rings
  import opened QueueProtocol

  // ---- one call -------------------------------------------------------------------------------

  /** A send to the back goes through if and only if there is room, and its item comes last. */
  lemma BackComesLast<Item>(s: State<Item>, task: Task, item: Item)
    requires Enabled(s, TaskSend(task, item, Back))
    ensures Exec(s, TaskSend(task, item, Back)).items == if |s.items| < s.length then s.items + [item] else s.items
    ensures Exec(s, IsrSend(item, Back)).items == if |s.items| < s.length then s.items + [item] else s.items
  {
  }

  /**
   * An item sent to the front is the next to be delivered, by whomever it is
   * received; and then the queue is as it was.
   */
  lemma FrontIsNext<Item>(s: State<Item>, a: Action<Item>, receive: Action<Item>)
    requires a.TaskSend? || a.IsrSend?
    requires a.position == Front && Enabled(s, a) && |s.items| < s.length
    requires receive.TaskReceive? || receive.IsrReceive?
    requires Enabled(Exec(s, a), receive)
    ensures var u := Exec(s, a);
            Delivered(u, receive) == [a.item] && Exec(u, receive).items == s.items
  {
  }

  /** A send to the front of a full queue does not go through. */
  lemma FrontNeedsRoom<Item>(s: State<Item>, a: Action<Item>)
    requires a.TaskSend? || a.IsrSend?
    requires a.position == Front && Enabled(s, a) && |s.items| >= s.length
    ensures Exec(s, a).items == s.items && Accepted(s, a) == []
  {
  }

  /** After an overwrite the queue of length one holds the item written, whatever was there, and delivers just that. */
  lemma OverwriteIsNext<Item>(s: State<Item>, a: Action<Item>, receive: Action<Item>)
    requires Inv(s) && (a.TaskSend? || a.IsrSend?)
    requires a.position == Overwrite && Enabled(s, a)
    requires receive.TaskReceive? || receive.IsrReceive?
    requires Enabled(Exec(s, a), receive)
    ensures var u := Exec(s, a);
            |u.items| == 1 && Delivered(u, receive) == [a.item] && Exec(u, receive).items == []
  {
  }

  /** A receive takes the front item and leaves the others; on an empty queue it takes nothing. */
  lemma ReceiveTakesFront<Item>(s: State<Item>, receive: Action<Item>)
    requires (receive.TaskReceive? || receive.IsrReceive?) && Enabled(s, receive)
    ensures if s.items == [] then Delivered(s, receive) == [] && Exec(s, receive).items == []
            else s.items == Delivered(s, receive) + Exec(s, receive).items && |Delivered(s, receive)| == 1
  {
  }

  /** A peek takes nothing. */
  lemma PeekTakesNothing<Item>(s: State<Item>, task: Task)
    requires Enabled(s, TaskPeek(task))
    ensures Exec(s, TaskPeek(task)).items == s.items && Delivered(s, TaskPeek(task)) == []
  {
  }

  // ---- who is woken -------------------------------------------------------------------------------

  /** Of the tasks on `list` the first, and no other, has been woken, if there was any. */
  ghost predicate FirstWoken(list: seq<Task>, left: seq<Task>, woken: set<Task>, wokenNow: set<Task>) {
    if list == [] then left == [] && wokenNow == woken
    else list == [list[0]] + left && wokenNow == woken + {list[0]}
  }

  /**
   * An item sent by a task wakes the first of the waiting receivers and no sender; a
   * send that does not go through wakes nobody.
   */
  lemma SendWakesFirst<Item>(s: State<Item>, task: Task, item: Item, position: Position)
    requires Enabled(s, TaskSend(task, item, position))
    ensures var u := Exec(s, TaskSend(task, item, position));
            && u.senders == s.senders && u.wokenSenders == s.wokenSenders - {task}
            && if |s.items| < s.length || position == Overwrite
               then FirstWoken(s.receivers, u.receivers, s.wokenReceivers, u.wokenReceivers)
               else u.receivers == s.receivers && u.wokenReceivers == s.wokenReceivers
  {
  }

  /** An item taken by a task wakes the first of the waiting senders and no receiver. */
  lemma ReceiveWakesFirst<Item>(s: State<Item>, task: Task)
    requires Enabled(s, TaskReceive(task))
    ensures var u := Exec(s, TaskReceive(task));
            && u.receivers == s.receivers && u.wokenReceivers == s.wokenReceivers - {task}
            && if s.items != [] then FirstWoken(s.senders, u.senders, s.wokenSenders, u.wokenSenders)
               else u.senders == s.senders && u.wokenSenders == s.wokenSenders
  {
  }

  /** A task that has looked at an item and left it wakes the next of the waiting receivers. */
  lemma PeekWakesFirst<Item>(s: State<Item>, task: Task)
    requires Enabled(s, TaskPeek(task))
    ensures var u := Exec(s, TaskPeek(task));
            && u.senders == s.senders && u.wokenSenders == s.wokenSenders
            && if s.items != []
               then FirstWoken(s.receivers, u.receivers, s.wokenReceivers - {task}, u.wokenReceivers)
               else u.receivers == s.receivers && u.wokenReceivers == s.wokenReceivers - {task}
  {
  }

  /**
   * An interrupt does the same while the queue is not locked.  While it is, nobody is
   * woken and the post is recorded.
   */
  lemma IsrSendWakesFirst<Item>(s: State<Item>, item: Item, position: Position)
    requires Inv(s) && Enabled(s, IsrSend(item, position)) && (|s.items| < s.length || position == Overwrite)
    ensures var u := Exec(s, IsrSend(item, position));
            && u.senders == s.senders && u.wokenSenders == s.wokenSenders
            && if s.locker.Locked?
               then u.receivers == s.receivers && u.wokenReceivers == s.wokenReceivers && u.posts == s.posts + 1
               else FirstWoken(s.receivers, u.receivers, s.wokenReceivers, u.wokenReceivers) && u.posts == s.posts
  {
  }

  lemma IsrReceiveWakesFirst<Item>(s: State<Item>)
    requires Inv(s) && s.items != []
    ensures var u := Exec(s, IsrReceive);
            && u.receivers == s.receivers && u.wokenReceivers == s.wokenReceivers
            && if s.locker != Nobody
               then u.senders == s.senders && u.wokenSenders == s.wokenSenders && u.removals == s.removals + 1
               else FirstWoken(s.senders, u.senders, s.wokenSenders, u.wokenSenders) && u.removals == s.removals
  {
  }

  /** Locking forgets what was recorded, and the queue and its waiting lists stay as they are. */
  lemma LockForgetsRecords<Item>(s: State<Item>, task: Task, side: Side)
    requires Inv(s) && Enabled(s, Lock(task, side))
    ensures var u := Exec(s, Lock(task, side));
            && u.txLock == 0 && u.rxLock == 0 && u.posts == 0 && u.removals == 0
            && u.items == s.items && u.receivers == s.receivers && u.senders == s.senders
            && u.locker.Locked? && u.locker.task == task && u.locker.side == side && !u.locker.observed
  {
  }

  /** A task that blocks waits on the list of its side, and nobody else is moved. */
  lemma PlaceWaits<Item>(s: State<Item>, at: nat)
    requires Inv(s) && Enabled(s, Place(at))
    ensures var u, t := Exec(s, Place(at)), s.locker.task;
            && u.items == s.items
            && (forall v :: v in u.receivers <==> v in s.receivers || (v == t && s.locker.side == Receiving))
            && (forall v :: v in u.senders <==> v in s.senders || (v == t && s.locker.side == Sending))
  {
    InsertAtFacts(s.receivers, at, s.locker.task);
    InsertAtFacts(s.senders, at, s.locker.task);
  }

  /** A task whose time is up waits on neither list, and nobody else is moved or woken. */
  lemma TimeOutTakesOff<Item>(s: State<Item>, task: Task)
    requires Inv(s) && Enabled(s, TimeOut(task))
    ensures var u := Exec(s, TimeOut(task));
            && u.items == s.items && u.wokenReceivers == s.wokenReceivers && u.wokenSenders == s.wokenSenders
            && (forall v :: v in u.receivers <==> v in s.receivers && v != task)
            && (forall v :: v in u.senders <==> v in s.senders && v != task)
  {
    RemovedFacts(s.receivers, task);
    RemovedFacts(s.senders, task);
  }

  // ---- whole runs ---------------------------------------------------------------------------------

  /**
   * A line of numbered places.  An item sent to the back is given the next number, one
   * sent to the front the number before the first, and one that overwrites takes over
   * the first number; the lowest number is handed out first.
   */
  datatype Line<Item> = Line(first: int, next: int, at: map<int, Item>)

  /** The places taken hold these items, in order. */
  ghost predicate Holds<Item>(l: Line<Item>, items: seq<Item>) {
    && l.next - l.first == |items|
    && forall n :: l.first <= n < l.next ==> n in l.at && l.at[n] == items[n - l.first]
  }

  function Joined<Item>(l: Line<Item>, position: Position, item: Item): Line<Item> {
    if position == Front then Line(l.first - 1, l.next, l.at[l.first - 1 := item])
    else if position == Overwrite && l.first < l.next then Line(l.first, l.next, l.at[l.first := item])
    else Line(l.first, l.next + 1, l.at[l.next := item])
  }

  /** The line after a step: somebody has joined it, or the first has left it. */
  function Moved<Item>(l: Line<Item>, s: State<Item>, a: Action<Item>): Line<Item> {
    if !Enabled(s, a) then l
    else if (a.TaskSend? || a.IsrSend?) && (|s.items| < s.length || a.position == Overwrite)
    then Joined(l, a.position, a.item)
    else if (a.TaskReceive? || a.IsrReceive?) && l.first < l.next then l.(first := l.first + 1)
    else l
  }

  /** What a step hands out: the item with the lowest number. */
  function HandedOut<Item>(l: Line<Item>, s: State<Item>, a: Action<Item>): seq<Item> {
    if Enabled(s, a) && (a.TaskReceive? || a.IsrReceive?) && l.first < l.next && l.first in l.at then [l.at[l.first]]
    else []
  }

  function AllHandedOut<Item>(l: Line<Item>, s: State<Item>, actions: seq<Action<Item>>): seq<Item>
    decreases actions
  {
    if actions == [] then []
    else HandedOut(l, s, actions[0]) + AllHandedOut(Moved(l, s, actions[0]), Stepped(s, actions[0]), actions[1..])
  }

  lemma JoinHolds<Item>(l: Line<Item>, items: seq<Item>, position: Position, item: Item)
    requires Holds(l, items) && (position == Overwrite ==> |items| <= 1)
    ensures Holds(Joined(l, position, item), Sent(items, item, position))
  {
  }

  lemma SendMoves<Item>(l: Line<Item>, s: State<Item>, a: Action<Item>)
    requires Inv(s) && Holds(l, s.items) && Enabled(s, a) && (a.TaskSend? || a.IsrSend?)
    ensures Holds(Moved(l, s, a), Exec(s, a).items)
  {
    JoinHolds(l, s.items, a.position, a.item);
  }

  lemma ReceiveMoves<Item>(l: Line<Item>, s: State<Item>, a: Action<Item>)
    requires Holds(l, s.items) && Enabled(s, a) && (a.TaskReceive? || a.IsrReceive?)
    ensures Holds(Moved(l, s, a), Exec(s, a).items) && HandedOut(l, s, a) == Delivered(s, a)
  {
  }

  lemma StepMoves<Item>(l: Line<Item>, s: State<Item>, a: Action<Item>)
    requires Inv(s) && Holds(l, s.items)
    ensures Holds(Moved(l, s, a), Stepped(s, a).items) && HandedOut(l, s, a) == Delivered(s, a)
  {
    if !Enabled(s, a) {
    } else if a.TaskSend? || a.IsrSend? {
      SendMoves(l, s, a);
    } else if a.TaskReceive? || a.IsrReceive? {
      ReceiveMoves(l, s, a);
    } else {
      OthersStay(s, a);
    }
  }

  lemma OthersStay<Item>(s: State<Item>, a: Action<Item>)
    requires Enabled(s, a) && !a.TaskSend? && !a.IsrSend? && !a.TaskReceive? && !a.IsrReceive?
    ensures Exec(s, a).items == s.items && Delivered(s, a) == []
  {
  }

  /**
   * Over every run, with items sent to the back, to the front and over one another by
   * tasks and interrupts, the queue hands out what the line does: always the item
   * with the lowest number.
   */
  lemma {:induction false} LowestNumberFirst<Item>(l: Line<Item>, s: State<Item>, actions: seq<Action<Item>>)
    requires Inv(s) && Holds(l, s.items)
    ensures AllDelivered(s, actions) == AllHandedOut(l, s, actions)
    decreases actions
  {
    if actions != [] {
      var a := actions[0];
      StepMoves(l, s, a);
      if Enabled(s, a) {
        StepKeepsInv(s, a);
      }
      LowestNumberFirst(Moved(l, s, a), Stepped(s, a), actions[1..]);
    }
  }

  lemma StepConservesItems<Item>(s: State<Item>, a: Action<Item>)
    requires a.TaskSend? || a.IsrSend? ==> a.position != Overwrite
    ensures multiset(s.items) + multiset(Accepted(s, a)) == multiset(Delivered(s, a)) + multiset(Stepped(s, a).items)
  {
    if a.TaskReceive? || a.IsrReceive? {
      ReceiveConserves(s, a);
    } else if Enabled(s, a) && !a.TaskSend? && !a.IsrSend? {
      OthersStay(s, a);
    }
  }

  lemma ReceiveConserves<Item>(s: State<Item>, a: Action<Item>)
    requires a.TaskReceive? || a.IsrReceive?
    ensures s.items == Delivered(s, a) + Stepped(s, a).items && Accepted(s, a) == []
  {
  }

  lemma ConservedTwice<Item>(before: seq<Item>, accepted: seq<Item>, more: seq<Item>,
                             delivered: seq<Item>, between: seq<Item>, others: seq<Item>, after: seq<Item>)
    requires multiset(before) + multiset(accepted) == multiset(delivered) + multiset(between)
    requires multiset(between) + multiset(more) == multiset(others) + multiset(after)
    ensures multiset(before) + multiset(accepted + more) == multiset(delivered + others) + multiset(after)
  {
    assert multiset(accepted + more) == multiset(accepted) + multiset(more);
    assert multiset(delivered + others) == multiset(delivered) + multiset(others);
    Regrouped(multiset(before), multiset(accepted), multiset(more),
              multiset(delivered), multiset(between), multiset(others), multiset(after));
  }

  lemma Regrouped<Item>(b: multiset<Item>, a: multiset<Item>, m: multiset<Item>,
                        d: multiset<Item>, t: multiset<Item>, o: multiset<Item>, f: multiset<Item>)
    requires b + a == d + t && t + m == o + f
    ensures b + (a + m) == (d + o) + f
  {
    assert b + (a + m) == (b + a) + m;
    assert (d + t) + m == d + (t + m);
    assert d + (o + f) == (d + o) + f;
  }

  /** Unless one is overwritten, over every run no item is lost and none is delivered twice. */
  lemma {:induction false} NoneLostNoneTwice<Item>(s: State<Item>, actions: seq<Action<Item>>)
    requires forall a :: a in actions && (a.TaskSend? || a.IsrSend?) ==> a.position != Overwrite
    ensures multiset(s.items) + multiset(AllAccepted(s, actions))
            == multiset(AllDelivered(s, actions)) + multiset(Run(s, actions).items)
    decreases actions
  {
    if actions != [] {
      var a, rest := actions[0], actions[1..];
      var t := Stepped(s, a);
      StepConservesItems(s, a);
      NoneLostNoneTwice(t, rest);
      ConservedTwice(s.items, Accepted(s, a), AllAccepted(t, rest),
                     Delivered(s, a), t.items, AllDelivered(t, rest), Run(t, rest).items);
    }
  }
}
