/**
 * queue.c: a queue of fixed-size items kept byte by byte in a circular store,
 * with its waiting lists and lock counts.  The store refines a bounded deque;
 * the critical sections refine the steps of QueueProtocol.
 */
module Queues {
  import opened Bytes
  import opened Rings
  import P = QueueProtocol

  type Task = P.Task
  type Item = seq<Byte>

  class Queue {
    const length: nat
    const itemSize: nat
    const storage: array<Byte>
    var writeTo: nat       // pcWriteTo, as an offset from pcHead
    var readFrom: nat      // u.xQueue.pcReadFrom, likewise
    var messagesWaiting: nat
    var receivers: seq<Task>
    var senders: seq<Task>
    var txLock: int
    var rxLock: int
    // The slot pcReadFrom points at, and the protocol state this queue is in.
    ghost var readSlot: nat
    ghost var protocol: P.State<Item>

    ghost predicate Shape()
      reads this
    {
      && length > 0
      && storage.Length == length * itemSize
      && readSlot < length && readFrom == readSlot * itemSize
      && messagesWaiting <= length
      && writeTo == Step(length, Step(length, readSlot, 1), messagesWaiting) * itemSize
    }

    /** The items, front first. */
    ghost function Contents(): (items: seq<Item>)
      requires Shape()
      reads this, storage
      ensures |items| == messagesWaiting
    {
      ItemsFrom(storage[..], length, itemSize, readSlot, messagesWaiting)
    }

    ghost predicate Valid()
      reads this, storage
    {
      && Shape()
      && protocol.length == length && protocol.itemSize == itemSize && protocol.items == Contents()
      && protocol.receivers == receivers && protocol.senders == senders
      && protocol.txLock == txLock && protocol.rxLock == rxLock
      && P.Inv(protocol)
    }

    /** memcpy of one item into the store. */
    method StoreItem(ghost slot: nat, at: nat, item: Item)
      requires storage.Length == length * itemSize
      requires slot < length && at == slot * itemSize && |item| == itemSize
      modifies storage
      ensures SlotOf(storage[..], length, itemSize, slot) == item
      ensures forall i :: 0 <= i < length && i != slot ==>
                SlotOf(storage[..], length, itemSize, i) == old(SlotOf(storage[..], length, itemSize, i))
    {
      SlotBounds(slot, length, itemSize);
      ghost var before := storage[..];
      forall k | 0 <= k < itemSize {
        storage[at + k] := item[k];
      }
      forall i | 0 <= i < length && i != slot
        ensures SlotOf(storage[..], length, itemSize, i) == SlotOf(before, length, itemSize, i)
      {
        SlotsApart(i, slot, length, itemSize);
      }
    }

    /** The item goes into the free slot and pcWriteTo moves on, round to the head at the tail. */
    method CopyToBack(item: Item)
      requires Shape() && itemSize > 0 && |item| == itemSize && messagesWaiting < length
      modifies this`writeTo, storage
      ensures writeTo == Step(length, Step(length, readSlot, 1), messagesWaiting + 1) * itemSize
      ensures ItemsFrom(storage[..], length, itemSize, readSlot, messagesWaiting + 1) == old(Contents()) + [item]
    {
      ghost var before := storage[..];
      ghost var slot := Step(length, Step(length, readSlot, 1), messagesWaiting);
      StoreItem(slot, writeTo, item);
      NextOffset(slot, length, itemSize);
      writeTo := writeTo + itemSize;
      if writeTo >= storage.Length {
        writeTo := 0;
      }
      AppendedItem(before, storage[..], length, itemSize, readSlot, messagesWaiting, item);
    }

    /** The item goes where the last one was read and pcReadFrom moves back, round to the last slot at the head. */
    method CopyToFront(item: Item, ghost kept: nat)
      requires Shape() && itemSize > 0 && |item| == itemSize && kept <= messagesWaiting && kept < length
      modifies this`readFrom, this`readSlot, storage
      ensures readSlot == Previous(length, old(readSlot)) && readFrom == readSlot * itemSize
      ensures ItemsFrom(storage[..], length, itemSize, readSlot, kept + 1)
              == [item] + ItemsFrom(old(storage[..]), length, itemSize, old(readSlot), kept)
    {
      ghost var before := storage[..];
      StoreItem(readSlot, readFrom, item);
      PreviousOffset(readSlot, length, itemSize);
      readFrom := if readFrom < itemSize then storage.Length - itemSize else readFrom - itemSize;
      PrependedItem(before, storage[..], length, itemSize, readSlot, kept, item);
      readSlot := Previous(length, readSlot);
    }

    /**
     * prvCopyDataToQueue for a queue that is not a mutex.  It leaves a queue behind
     * exactly unless a full queue of empty items is overwritten, which counts one
     * item too many.
     */
    method CopyDataToQueue(item: Item, position: P.Position)
      requires Shape() && |item| == itemSize
      requires P.CanSend(length, Contents(), position) && (position == P.Overwrite ==> length == 1)
      modifies this`writeTo, this`readFrom, this`messagesWaiting, this`readSlot, storage
      ensures messagesWaiting == P.CountAfterSend(itemSize, old(messagesWaiting), position)
      ensures Shape() <==> !(itemSize == 0 && position == P.Overwrite && old(messagesWaiting) == length)
      ensures Shape() ==> Contents() == P.Sent(old(Contents()), item, position)
    {
      var waiting := messagesWaiting;
      if itemSize == 0 {
        assert item == [];
      } else if position == P.Back {
        CopyToBack(item);
      } else {
        if position == P.Overwrite && waiting > 0 {
          waiting := waiting - 1;
        }
        CopyToFront(item, waiting);
      }
      messagesWaiting := waiting + 1;
    }

    /** prvCopyDataFromQueue: steps the read position on and copies the item there. */
    method CopyDataFromQueue() returns (item: Item)
      requires length > 0 && storage.Length == length * itemSize
      requires readSlot < length && readFrom == readSlot * itemSize
      modifies this`readFrom, this`readSlot
      ensures readSlot == Step(length, old(readSlot), 1) && readFrom == readSlot * itemSize
      ensures item == SlotOf(storage[..], length, itemSize, readSlot)
    {
      NextOffset(readSlot, length, itemSize);
      readSlot := Step(length, readSlot, 1);
      SlotBounds(readSlot, length, itemSize);
      item := [];
      if itemSize != 0 {
        readFrom := readFrom + itemSize;
        if readFrom >= storage.Length {
          readFrom := 0;
        }
        item := storage[readFrom..readFrom + itemSize];
      }
    }

    /** xQueueGenericCreate: an empty queue among `tasks`. */
    constructor (length: nat, itemSize: nat, ghost tasks: set<Task>)
      requires length > 0 && |tasks| <= P.INT8_MAX
      ensures Valid() && fresh(storage) && this.length == length && this.itemSize == itemSize
      ensures protocol == P.Init(tasks, length, itemSize, [])
    {
      this.length, this.itemSize := length, itemSize;
      storage := new Byte[length * itemSize](_ => 0);
      SlotBounds(0, length, itemSize);
      assert (length - 1) * itemSize == length * itemSize - itemSize;
      writeTo, readFrom, messagesWaiting := 0, (length - 1) * itemSize, 0;
      receivers, senders, txLock, rxLock := [], [], P.UNLOCKED, P.UNLOCKED;
      readSlot := length - 1;
      protocol := P.Init(tasks, length, itemSize, []);
    }

    /** The critical section of xQueueGenericSend. */
    method Send(ghost task: Task, item: Item, position: P.Position) returns (sent: bool)
      requires Valid() && |item| == itemSize
      requires P.Enabled(protocol, P.TaskSend(task, item, position))
      modifies this, storage
      ensures Valid() && protocol == P.SendByTask(old(protocol), task, item, position)
      ensures sent <==> P.CanSend(length, old(Contents()), position)
    {
      P.StepKeepsInv(protocol, P.TaskSend(task, item, position));
      sent := messagesWaiting < length || position == P.Overwrite;
      if sent {
        CopyDataToQueue(item, position);
        if receivers != [] {
          receivers := receivers[1..];
        }
      }
      protocol := P.SendByTask(protocol, task, item, position);
    }

    /** xQueueGenericSendFromISR; `tasks` is uxTaskGetNumberOfTasks(). */
    method SendFromISR(item: Item, position: P.Position, tasks: nat) returns (sent: bool)
      requires Valid() && |item| == itemSize && tasks == |protocol.tasks|
      requires P.Enabled(protocol, P.IsrSend(item, position))
      modifies this, storage
      ensures Valid() && protocol == P.SendByIsr(old(protocol), item, position)
      ensures sent <==> P.CanSend(length, old(Contents()), position)
    {
      P.StepKeepsInv(protocol, P.IsrSend(item, position));
      sent := messagesWaiting < length || position == P.Overwrite;
      if sent {
        CopyDataToQueue(item, position);
        if txLock == P.UNLOCKED {
          if receivers != [] {
            receivers := receivers[1..];
          }
        } else if txLock < tasks {
          txLock := txLock + 1;
        }
      }
      protocol := P.SendByIsr(protocol, item, position);
    }

    /** What both receives do with the item at the front. */
    method RemoveFront() returns (item: Item)
      requires Shape() && messagesWaiting > 0
      modifies this`readFrom, this`readSlot, this`messagesWaiting
      ensures Shape()
      ensures old(Contents()) == [item] + Contents()
    {
      item := CopyDataFromQueue();
      messagesWaiting := messagesWaiting - 1;
      RestOfItems(storage[..], length, itemSize, old(readSlot), old(messagesWaiting));
    }

    /** The critical section of xQueueReceive. */
    method Receive(ghost task: Task) returns (received: bool, item: Item)
      requires Valid() && P.Enabled(protocol, P.TaskReceive(task))
      modifies this
      ensures Valid() && protocol == P.ReceiveByTask(old(protocol), task)
      ensures received <==> old(Contents()) != []
      ensures received ==> item == old(Contents())[0]
    {
      P.StepKeepsInv(protocol, P.TaskReceive(task));
      received, item := messagesWaiting > 0, [];
      if received {
        item := RemoveFront();
        if senders != [] {
          senders := senders[1..];
        }
      }
      protocol := P.ReceiveByTask(protocol, task);
    }

    /** xQueueReceiveFromISR. */
    method ReceiveFromISR(tasks: nat) returns (received: bool, item: Item)
      requires Valid() && tasks == |protocol.tasks|
      modifies this
      ensures Valid() && protocol == P.ReceiveByIsr(old(protocol))
      ensures received <==> old(Contents()) != []
      ensures received ==> item == old(Contents())[0]
    {
      P.StepKeepsInv(protocol, P.IsrReceive);
      received, item := messagesWaiting > 0, [];
      if received {
        item := RemoveFront();
        if rxLock == P.UNLOCKED {
          if senders != [] {
            senders := senders[1..];
          }
        } else if rxLock < tasks {
          rxLock := rxLock + 1;
        }
      }
      protocol := P.ReceiveByIsr(protocol);
    }

    /** The critical section of xQueuePeek: copies the front item and puts the read position back. */
    method Peek(ghost task: Task) returns (peeked: bool, item: Item)
      requires Valid() && P.Enabled(protocol, P.TaskPeek(task))
      modifies this
      ensures Valid() && protocol == P.PeekByTask(old(protocol), task)
      ensures Contents() == old(Contents())
      ensures peeked <==> old(Contents()) != []
      ensures peeked ==> item == old(Contents())[0]
    {
      P.StepKeepsInv(protocol, P.TaskPeek(task));
      peeked, item := messagesWaiting > 0, [];
      if peeked {
        var original := readFrom;
        ghost var slot := readSlot;
        item := CopyDataFromQueue();
        RestOfItems(storage[..], length, itemSize, slot, messagesWaiting);
        readFrom := original;
        readSlot := slot;
        if receivers != [] {
          receivers := receivers[1..];
        }
      }
      protocol := P.PeekByTask(protocol, task);
    }

    /** prvLockQueue. */
    method Lock(ghost task: Task, ghost side: P.Side)
      requires Valid() && P.Enabled(protocol, P.Lock(task, side))
      modifies this
      ensures Valid() && protocol == P.LockQueue(old(protocol), task, side)
    {
      P.StepKeepsInv(protocol, P.Lock(task, side));
      if rxLock == P.UNLOCKED {
        rxLock := P.LOCKED_UNMODIFIED;
      }
      if txLock == P.UNLOCKED {
        txLock := P.LOCKED_UNMODIFIED;
      }
      protocol := P.LockQueue(protocol, task, side);
    }

    /**
     * prvIsQueueEmpty and prvIsQueueFull, as the task that has locked the queue asks
     * them before it blocks.
     */
    method MustBlock(side: P.Side) returns (mustBlock: bool)
      requires Valid() && protocol.locker.Locked? && protocol.locker.side == side
      requires !protocol.locker.observed && P.Runs(protocol, protocol.locker.task)
      modifies this`protocol
      ensures Valid() && protocol == P.Stepped(old(protocol), P.Observe)
      ensures mustBlock <==> if side == P.Receiving then Contents() == [] else |Contents()| == length
      ensures mustBlock <==> P.Enabled(old(protocol), P.Observe)
    {
      mustBlock := if side == P.Receiving then messagesWaiting == 0 else messagesWaiting == length;
      if mustBlock {
        P.StepKeepsInv(protocol, P.Observe);
        protocol := P.Exec(protocol, P.Observe);
      }
    }

    /** vTaskPlaceOnEventList on the list of the task's side; its priority decides where. */
    method PlaceOnEventList(task: Task, side: P.Side, at: nat)
      requires Valid() && P.Enabled(protocol, P.Place(at))
      requires protocol.locker.task == task && protocol.locker.side == side
      modifies this`receivers, this`senders, this`protocol
      ensures Valid() && protocol == P.Exec(old(protocol), P.Place(at))
      ensures if side == P.Receiving
              then receivers == P.InsertAt(old(receivers), at, task) && senders == old(senders)
              else senders == P.InsertAt(old(senders), at, task) && receivers == old(receivers)
    {
      P.StepKeepsInv(protocol, P.Place(at));
      if side == P.Receiving {
        receivers := P.InsertAt(receivers, at, task);
      } else {
        senders := P.InsertAt(senders, at, task);
      }
      protocol := P.Exec(protocol, P.Place(at));
    }

    /** The tick takes a task whose time is up off the list it waits on. */
    method TimeOut(task: Task)
      requires Valid() && P.Enabled(protocol, P.TimeOut(task))
      modifies this`receivers, this`senders, this`protocol
      ensures Valid() && protocol == P.Exec(old(protocol), P.TimeOut(task))
      ensures receivers == Removed(old(receivers), task) && senders == Removed(old(senders), task)
    {
      P.StepKeepsInv(protocol, P.TimeOut(task));
      receivers, senders := Removed(receivers, task), Removed(senders, task);
      protocol := P.Exec(protocol, P.TimeOut(task));
    }

    /** The loops of prvUnlockQueue: one waiting task is woken for each count, head first. */
    static method WakeForEach(count: int, waiting: seq<Task>) returns (left: seq<Task>)
      ensures left == waiting[P.Min(if count > 0 then count else 0, |waiting|)..]
    {
      left := waiting;
      var lock := count;
      while lock > P.LOCKED_UNMODIFIED
        invariant count >= 0 ==> lock >= 0
        invariant count < 0 ==> lock == count
        invariant 0 <= count - lock <= |waiting| && left == waiting[count - lock..]
      {
        if left == [] {
          break;
        }
        left := left[1..];
        lock := lock - 1;
      }
    }

    /** The first critical section of prvUnlockQueue. */
    method UnlockTx()
      requires Valid() && P.Enabled(protocol, P.UnlockTx)
      modifies this`receivers, this`txLock, this`protocol
      ensures Valid() && protocol == P.UnlockTransmit(old(protocol))
    {
      P.StepKeepsInv(protocol, P.UnlockTx);
      receivers := WakeForEach(txLock, receivers);
      txLock := P.UNLOCKED;
      protocol := P.UnlockTransmit(protocol);
    }

    /** The second critical section of prvUnlockQueue. */
    method UnlockRx()
      requires Valid() && P.Enabled(protocol, P.UnlockRx)
      modifies this`senders, this`rxLock, this`protocol
      ensures Valid() && protocol == P.UnlockReceive(old(protocol))
    {
      P.StepKeepsInv(protocol, P.UnlockRx);
      senders := WakeForEach(rxLock, senders);
      rxLock := P.UNLOCKED;
      protocol := P.UnlockReceive(protocol);
    }
  }

  /** The bytes of slot `i`. */
  function SlotOf(store: seq<Byte>, length: nat, size: nat, i: nat): Item
    requires |store| == length * size && i < length
  {
    SlotBounds(i, length, size);
    store[i * size..i * size + size]
  }

  /** The `n` items in the slots after `readSlot`, going round. */
  function ItemsFrom(store: seq<Byte>, length: nat, size: nat, readSlot: nat, n: nat): (items: seq<Item>)
    requires |store| == length * size && readSlot < length && n <= length
    ensures |items| == n
  {
    seq(n, k requires 0 <= k < n => SlotOf(store, length, size, Step(length, Step(length, readSlot, 1), k)))
  }

  /** An item stored in the free slot behind the last one comes last. */
  lemma AppendedItem(before: seq<Byte>, after: seq<Byte>, length: nat, size: nat, readSlot: nat, n: nat, item: Item)
    requires |before| == |after| == length * size && readSlot < length && n < length
    requires var slot := Step(length, Step(length, readSlot, 1), n);
             && SlotOf(after, length, size, slot) == item
             && forall i :: 0 <= i < length && i != slot ==>
                  SlotOf(after, length, size, i) == SlotOf(before, length, size, i)
    ensures ItemsFrom(after, length, size, readSlot, n + 1) == ItemsFrom(before, length, size, readSlot, n) + [item]
  {
  }

  /** An item stored in the slot last read from comes first once the read position steps back. */
  lemma PrependedItem(before: seq<Byte>, after: seq<Byte>, length: nat, size: nat, readSlot: nat, n: nat, item: Item)
    requires |before| == |after| == length * size && readSlot < length && n < length
    requires SlotOf(after, length, size, readSlot) == item
    requires forall i :: 0 <= i < length && i != readSlot ==>
               SlotOf(after, length, size, i) == SlotOf(before, length, size, i)
    ensures ItemsFrom(after, length, size, Previous(length, readSlot), n + 1)
            == [item] + ItemsFrom(before, length, size, readSlot, n)
  {
  }

  /** The first item is in the slot after the read position; the rest follow it. */
  lemma RestOfItems(store: seq<Byte>, length: nat, size: nat, readSlot: nat, n: nat)
    requires |store| == length * size && readSlot < length && 0 < n <= length
    ensures var next := Step(length, readSlot, 1);
            ItemsFrom(store, length, size, readSlot, n)
            == [SlotOf(store, length, size, next)] + ItemsFrom(store, length, size, next, n - 1)
  {
  }

  function Previous(length: nat, slot: nat): nat
    requires slot < length
  {
    if slot == 0 then length - 1 else slot - 1
  }

  lemma SlotBounds(i: nat, length: nat, size: nat)
    requires i < length
    ensures 0 <= i * size && i * size + size <= length * size
  {
    assert (i + 1) * size <= length * size;
  }

  lemma SlotsApart(i: nat, j: nat, length: nat, size: nat)
    requires i < length && j < length && i != j
    ensures i * size + size <= j * size || j * size + size <= i * size
    ensures i * size + size <= length * size && j * size + size <= length * size
  {
    SlotBounds(i, length, size);
    SlotBounds(j, length, size);
    if i < j {
      SlotBounds(i, j, size);
    } else {
      SlotBounds(j, i, size);
    }
  }

  lemma NextOffset(slot: nat, length: nat, size: nat)
    requires slot < length
    ensures Step(length, slot, 1) * size == if slot * size + size >= length * size then 0 else slot * size + size
  {
    SlotBounds(slot, length, size);
    if slot + 1 < length {
      if size > 0 {
        SlotBounds(slot + 1, length, size);
      }
    }
    assert (slot + 1) * size == slot * size + size;
  }

  lemma PreviousOffset(slot: nat, length: nat, size: nat)
    requires slot < length && size > 0
    ensures Previous(length, slot) * size == if slot * size < size then length * size - size else slot * size - size
  {
    assert slot > 0 ==> slot * size >= size;
    assert (slot - 1) * size == slot * size - size;
    assert (length - 1) * size == length * size - size;
  }
}
